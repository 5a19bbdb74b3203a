/** The canonical form of repository-relative paths. */
module RepositoryPath {
  import opened Values

  function Slashed(p: string): (s: string)
    ensures |s| == |p| && forall i :: 0 <= i < |p| ==> s[i] == if p[i] == '\\' then '/' else p[i]
  {
    seq(|p|, i requires 0 <= i < |p| => if p[i] == '\\' then '/' else p[i])
  }

  predicate IsLetter(c: char) { 'A' <= c <= 'Z' || 'a' <= c <= 'z' }

  predicate Control(c: char) { (c as int < 32 && c != '\t') || c as int == 127 }

  function Split(p: string): (parts: seq<string>)
    ensures |parts| >= 1
    ensures forall i :: 0 <= i < |parts| ==> '/' !in parts[i]
    decreases |p|
  {
    if p == "" then [""]
    else
      var rest := Split(p[1..]);
      if p[0] == '/' then [""] + rest else [[p[0]] + rest[0]] + rest[1..]
  }

  function Join(parts: seq<string>): string
    requires |parts| >= 1
  {
    if |parts| == 1 then parts[0] else parts[0] + "/" + Join(parts[1..])
  }

  lemma {:induction false} JoinSplit(p: string)
    ensures Join(Split(p)) == p
    decreases |p|
  {
    if p != "" {
      JoinSplit(p[1..]);
      var rest := Split(p[1..]);
      if p[0] == '/' {
        assert ([""] + rest)[1..] == rest;
        assert p == "/" + p[1..];
      } else {
        var parts := [[p[0]] + rest[0]] + rest[1..];
        assert parts[1..] == rest[1..];
        if |rest| == 1 {
          assert Join(parts) == [p[0]] + rest[0];
        } else {
          assert Join(parts) == [p[0]] + rest[0] + "/" + Join(rest[1..]);
          assert Join(parts) == [p[0]] + Join(rest);
        }
        assert p == [p[0]] + p[1..];
      }
    }
  }

  predicate UnsafePart(part: string) { part == "" || part == "." || part == ".." }

  /** The canonical path, or nothing when the path is unsafe. */
  function Normalize(filePath: string): Option<string> {
    var p := Slashed(filePath);
    if p == "" || p[0] == '/' || DriveRooted(p) then None
    else if exists c :: c in p && Control(c) then None
    else
      var parts := Split(p);
      if exists part :: part in parts && UnsafePart(part) then None else Some(Join(parts))
  }

  /** What a canonical path is: relative, in forward slashes, printable, with no empty, `.` or `..`
      component. */
  ghost predicate Canonical(p: string) {
    && p != "" && p[0] != '/' && '\\' !in p
    && (forall c :: c in p ==> (32 <= c as int || c == '\t') && c as int != 127)
    && (forall part :: part in Split(p) ==> part != "" && part != "." && part != "..")
  }

  predicate DriveRooted(p: string) { |p| >= 3 && IsLetter(p[0]) && p[1] == ':' && p[2] == '/' }

  /** Exactly the paths whose slashed form is canonical and names no drive are accepted, and they come
      out in that form, which is a fixed point. */
  lemma NormalizeIsCanonical(filePath: string)
    ensures var n, p := Normalize(filePath), Slashed(filePath);
            && (n.Some? <==>
                  && Canonical(p)
                  && !(|p| >= 3 && ('a' <= p[0] <= 'z' || 'A' <= p[0] <= 'Z') && p[1..3] == ":/"))
            && (n.Some? ==> n.value == p && Normalize(p) == n)
  {
    var p := Slashed(filePath);
    JoinSplit(p);
    assert '\\' !in p;
    assert |p| >= 3 ==> p[1..3] == [p[1], p[2]];
    if Normalize(filePath).Some? {
      assert Slashed(p) == p;
    }
  }
}
