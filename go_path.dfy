/** Go's `path.Clean` and `path.IsAbs`, written out by the lexical rules the
    `path` package documents:
      1. replace multiple slashes by a single slash;
      2. eliminate each `.` element;
      3. eliminate each inner `..` element and the non-`..` element before it;
      4. eliminate `..` elements that begin a rooted path;
    the result is `.` when nothing is left, and it keeps a leading slash
    exactly when the input had one. */
module GoPath {
  import opened GoStrings

  /** `path.IsAbs`: the path starts with a slash. */
  predicate IsAbs(p: string): (b: bool)
    ensures b <==> HasPrefix(p, "/")
  {
    |p| > 0 && p[0] == '/'
  }

  /** A path element that may appear in a cleaned path. */
  predicate IsElement(seg: string) {
    seg != "" && '/' !in seg
  }

  predicate AllElements(segs: seq<string>) {
    forall i :: 0 <= i < |segs| ==> IsElement(segs[i])
  }

  /** The pieces of `s` between slashes, empty ones included. */
  function Split(s: string): (parts: seq<string>)
    ensures |parts| >= 1
    ensures forall i :: 0 <= i < |parts| ==> '/' !in parts[i]
  {
    if s == [] then [""]
    else
      var rest := Split(s[1..]);
      if s[0] == '/' then [""] + rest
      else [[s[0]] + rest[0]] + rest[1..]
  }

  /** Rules 1-4, left to right, over the elements still to be read (`parts`)
      and the elements kept so far (`kept`). */
  function Resolve(parts: seq<string>, rooted: bool, kept: seq<string>): (out: seq<string>)
    requires forall i :: 0 <= i < |parts| ==> '/' !in parts[i]
    requires AllElements(kept)
    ensures AllElements(out)
    decreases |parts|
  {
    if parts == [] then kept
    else
      var p := parts[0];
      if p == "" || p == "." then Resolve(parts[1..], rooted, kept)
      else if p == ".." then
        if |kept| > 0 && kept[|kept| - 1] != ".." then Resolve(parts[1..], rooted, kept[..|kept| - 1])
        else if rooted then Resolve(parts[1..], rooted, kept)
        else Resolve(parts[1..], rooted, kept + [".."])
      else Resolve(parts[1..], rooted, kept + [p])
  }

  /** The elements separated by single slashes. */
  function Join(segs: seq<string>): string {
    if segs == [] then ""
    else if |segs| == 1 then segs[0]
    else segs[0] + "/" + Join(segs[1..])
  }

  /** Joined elements never begin or end with a slash, and are empty only
      when there are no elements. */
  lemma {:induction false} JoinShape(segs: seq<string>)
    requires AllElements(segs)
    ensures Join(segs) == "" <==> segs == []
    ensures Join(segs) != "" ==> Join(segs)[0] != '/' && Join(segs)[|Join(segs)| - 1] != '/'
  {
    if |segs| == 1 {
      assert IsElement(segs[0]);
    } else if |segs| > 1 {
      assert IsElement(segs[0]);
      JoinShape(segs[1..]);
    }
  }

  /** `path.Clean`.  Its result is never empty, starts with a slash exactly
      when the input did, and ends with a slash only when it is the root. */
  function Clean(p: string): (c: string)
    ensures c != ""
    ensures c[0] == '/' <==> IsAbs(p)
    ensures c[|c| - 1] == '/' <==> c == "/"
  {
    var rooted := IsAbs(p);
    var segs := Resolve(Split(p), rooted, []);
    JoinShape(segs);
    var body := Join(segs);
    if rooted then "/" + body
    else if body == "" then "."
    else body
  }

  /** Cleaning removes a trailing slash: `a/` becomes `a`. */
  lemma CleanDropsTrailingSlash()
    ensures Clean("a/") == "a"
  {
  }

  /** A leading `..` of a relative path is kept: `../x` is already clean. */
  lemma CleanKeepsLeadingDotDot()
    ensures Clean("../x") == "../x"
  {
  }
}
