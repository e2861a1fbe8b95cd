/** Comma splitting with the semantics of Go's strings.Split(s, ","). */
module Strings {

  /** The pieces of `s` between commas. There is always at least one piece: the
      empty string splits into [""], and "a,," into ["a", "", ""]. */
  function Split(s: string): (parts: seq<string>)
    ensures |parts| >= 1
    ensures forall p :: p in parts ==> ',' !in p
    ensures Join(parts) == s
  {
    if |s| == 0 then [""]
    else
      var rest := Split(s[1..]);
      if s[0] == ',' then
        [""] + rest
      else
        var parts := [[s[0]] + rest[0]] + rest[1..];
        assert parts[1..] == rest[1..];
        if |rest| == 1 then parts
        else
          assert Join(rest) == rest[0] + "," + Join(rest[1..]);
          assert Join(parts) == [s[0]] + Join(rest);
          parts
  }

  /** The inverse of Split: the pieces glued back with commas. */
  function Join(parts: seq<string>): string
    requires |parts| >= 1
  {
    if |parts| == 1 then parts[0] else parts[0] + "," + Join(parts[1..])
  }

  /** A comma-free string is a single piece. */
  lemma {:induction false} SplitCommaFree(p: string)
    requires ',' !in p
    ensures Split(p) == [p]
  {
    if |p| > 0 {
      assert ',' !in p[1..] by {
        forall c | c in p[1..] ensures c != ',' {
          var i :| 0 <= i < |p[1..]| && p[1..][i] == c;
          assert p[i + 1] == c;
        }
      }
      SplitCommaFree(p[1..]);
      assert [p[0]] + p[1..] == p;
    }
  }

  /** A comma-free piece followed by a comma splits off as the first piece. */
  lemma {:induction false} SplitFirstPiece(p: string, rest: string)
    requires ',' !in p
    ensures Split(p + "," + rest) == [p] + Split(rest)
  {
    var s := p + "," + rest;
    if |p| == 0 {
      assert s[0] == ',' && s[1..] == rest;
    } else {
      assert ',' !in p[1..] by {
        forall c | c in p[1..] ensures c != ',' {
          var i :| 0 <= i < |p[1..]| && p[1..][i] == c;
          assert p[i + 1] == c;
        }
      }
      assert s[0] == p[0];
      assert s[1..] == p[1..] + "," + rest;
      SplitFirstPiece(p[1..], rest);
      assert [p[0]] + p[1..] == p;
    }
  }

  /** Split undoes Join on comma-free pieces. */
  lemma {:induction false} SplitJoin(parts: seq<string>)
    requires |parts| >= 1
    requires forall p :: p in parts ==> ',' !in p
    ensures Split(Join(parts)) == parts
  {
    if |parts| == 1 {
      SplitCommaFree(parts[0]);
    } else {
      assert parts[0] in parts;
      assert forall p :: p in parts[1..] ==> p in parts;
      SplitJoin(parts[1..]);
      SplitFirstPiece(parts[0], Join(parts[1..]));
      assert [parts[0]] + parts[1..] == parts;
    }
  }

  /** The two- and three-component shapes of an annotation split as written. */
  lemma SplitTwo(a: string, b: string)
    requires ',' !in a && ',' !in b
    ensures Split(a + "," + b) == [a, b]
  {
    var parts := [a, b];
    assert forall p :: p in parts ==> ',' !in p;
    assert Join(parts) == a + "," + b;
    SplitJoin(parts);
  }

  lemma SplitThree(a: string, b: string, c: string)
    requires ',' !in a && ',' !in b && ',' !in c
    ensures Split(a + "," + b + "," + c) == [a, b, c]
  {
    var parts := [a, b, c];
    assert forall p :: p in parts ==> ',' !in p;
    assert parts[1..] == [b, c] && parts[1..][1..] == [c];
    assert Join(parts[1..]) == b + "," + c;
    assert a + "," + (b + "," + c) == a + "," + b + "," + c;
    SplitJoin(parts);
  }
}
