/** Lines and tab-separated columns, as Rust's `split_inclusive`, `split` and `join` treat them. */
module SnapshotText {

  /** The first index of `c`, or the length. */
  function Find(s: string, c: char): (i: nat)
    ensures i <= |s| && c !in s[..i]
    ensures i < |s| ==> s[i] == c
  {
    if s == [] || s[0] == c then 0
    else
      var i := Find(s[1..], c);
      assert s[..i + 1] == [s[0]] + s[1..][..i];
      i + 1
  }

  lemma FindFirst(a: string, c: char, b: string)
    requires c !in a
    ensures Find(a + [c] + b, c) == |a| && Find(a, c) == |a|
  {
    var s := a + [c] + b;
    assert s[|a|] == c && s[..|a|] == a;
  }

  // ---------- columns ----------

  function Fields(s: string, c: char): (fields: seq<string>)
    ensures fields != [] && forall f | f in fields :: c !in f
    ensures forall f, d | f in fields && d in f :: d in s
    decreases |s|
  {
    var i := Find(s, c);
    if i == |s| then
      assert s[..i] == s;
      [s]
    else [s[..i]] + Fields(s[i + 1..], c)
  }

  function Join(fields: seq<string>, c: char): string
    requires fields != []
  {
    if |fields| == 1 then fields[0] else fields[0] + [c] + Join(fields[1..], c)
  }

  lemma {:induction false} JoinFields(s: string, c: char)
    ensures Join(Fields(s, c), c) == s
    decreases |s|
  {
    var i := Find(s, c);
    if i < |s| {
      JoinFields(s[i + 1..], c);
      assert Fields(s, c)[1..] == Fields(s[i + 1..], c);
    }
  }

  lemma FieldsCons(field: string, rest: string, c: char)
    requires c !in field
    ensures Fields(field, c) == [field]
    ensures Fields(field + [c] + rest, c) == [field] + Fields(rest, c)
  {
    FindFirst(field, c, rest);
    var s := field + [c] + rest;
    assert s[..|field|] == field && s[|field| + 1..] == rest;
  }

  lemma {:induction false} FieldsJoin(fields: seq<string>, c: char)
    requires fields != [] && forall f | f in fields :: c !in f
    ensures Fields(Join(fields, c), c) == fields
  {
    if |fields| == 1 {
      FieldsCons(fields[0], [], c);
    } else {
      FieldsCons(fields[0], Join(fields[1..], c), c);
      FieldsJoin(fields[1..], c);
      assert fields == [fields[0]] + fields[1..];
    }
  }

  lemma {:induction false} JoinConcat(a: seq<string>, b: seq<string>, c: char)
    requires a != [] && b != []
    ensures Join(a + b, c) == Join(a, c) + [c] + Join(b, c)
  {
    if |a| == 1 {
      assert (a + b)[1..] == b;
    } else {
      assert (a + b)[1..] == a[1..] + b;
      JoinConcat(a[1..], b, c);
    }
  }

  lemma FieldsConcat(a: string, b: string, c: char)
    ensures Fields(a + [c] + b, c) == Fields(a, c) + Fields(b, c)
  {
    JoinFields(a, c);
    JoinFields(b, c);
    JoinConcat(Fields(a, c), Fields(b, c), c);
    FieldsJoin(Fields(a, c) + Fields(b, c), c);
  }

  lemma {:induction false} JoinCharacters(fields: seq<string>, c: char, d: char)
    requires fields != []
    ensures d in Join(fields, c) <==> (d == c && |fields| > 1) || exists f :: f in fields && d in f
  {
    if |fields| > 1 {
      JoinCharacters(fields[1..], c, d);
      assert fields == [fields[0]] + fields[1..];
    } else {
      assert fields[0] in fields;
    }
  }

  // ---------- lines ----------

  /** Each line keeps its newline; the last one may have none. */
  function Lines(s: string): (lines: seq<string>)
    ensures forall l | l in lines :: IsLine(l)
    ensures lines == [] <==> s == ""
    decreases |s|
  {
    if s == "" then []
    else
      var i := Find(s, '\n');
      if i == |s| then
        assert s[..i] == s && s[..|s| - 1] <= s;
        [s]
      else
        assert s[..i + 1][..i] == s[..i];
        [s[..i + 1]] + Lines(s[i + 1..])
  }

  predicate EndsLine(s: string) {
    s != "" && s[|s| - 1] == '\n'
  }

  /** Nonempty, with a newline at most at the end. */
  predicate IsLine(l: string) {
    l != "" && '\n' !in l[..|l| - 1]
  }

  function Concat(lines: seq<string>): string {
    if lines == [] then "" else lines[0] + Concat(lines[1..])
  }

  lemma {:induction false} ConcatLines(s: string)
    ensures Concat(Lines(s)) == s
    decreases |s|
  {
    if s != "" {
      var i := Find(s, '\n');
      if i < |s| {
        ConcatLines(s[i + 1..]);
        assert Lines(s)[1..] == Lines(s[i + 1..]);
      }
    }
  }

  /** Splitting a complete line off the front. */
  lemma LinesCons(l: string, rest: string)
    requires IsLine(l) && EndsLine(l)
    ensures Lines(l + rest) == [l] + Lines(rest)
  {
    var body := l[..|l| - 1];
    FindFirst(body, '\n', rest);
    assert l + rest == body + ['\n'] + rest;
    assert (l + rest)[..|l|] == l && (l + rest)[|l|..] == rest;
  }

  lemma LinesOfLine(l: string)
    requires IsLine(l)
    ensures Lines(l) == [l]
  {
    if EndsLine(l) {
      LinesCons(l, "");
      assert l + "" == l;
    } else {
      forall k | 0 <= k < |l| ensures l[k] != '\n' {
        assert k < |l| - 1 ==> l[..|l| - 1][k] == l[k];
      }
      FindFirst(l, '\n', "");
    }
  }

  /** Lines laid end to end are read back, if all but the last are complete. */
  predicate Laid(lines: seq<string>) {
    && (forall l | l in lines :: IsLine(l))
    && (forall k | 0 <= k < |lines| - 1 :: EndsLine(lines[k]))
  }

  lemma {:induction false} LinesConcat(lines: seq<string>)
    requires Laid(lines)
    ensures Lines(Concat(lines)) == lines
  {
    if |lines| == 1 {
      LinesOfLine(lines[0]);
      assert Concat(lines) == lines[0];
    } else if lines != [] {
      LinesConcat(lines[1..]);
      LinesCons(lines[0], Concat(lines[1..]));
    }
  }

  /** Any text with a newline starts with a complete line. */
  lemma FirstLine(s: string) returns (l: string, rest: string)
    requires '\n' in s
    ensures s == l + rest && IsLine(l) && EndsLine(l)
  {
    var i := Find(s, '\n');
    l, rest := s[..i + 1], s[i + 1..];
    assert l[..i] == s[..i];
  }

  lemma LaidCons(l: string, lines: seq<string>)
    requires IsLine(l) && EndsLine(l) && Laid(lines)
    ensures Laid([l] + lines)
  {
    var all := [l] + lines;
    forall k | 0 <= k < |all| - 1 ensures EndsLine(all[k]) {
      assert k > 0 ==> all[k] == lines[k - 1];
    }
  }

  lemma EndOfRest(l: string, rest: string)
    requires EndsLine(l)
    ensures EndsLine(l + rest) <==> rest == "" || EndsLine(rest)
  {
    assert rest != "" ==> (l + rest)[|l + rest| - 1] == rest[|rest| - 1];
    assert rest == "" ==> l + rest == l;
  }

  lemma {:induction false} LinesAreLaid(s: string)
    ensures Laid(Lines(s))
    ensures Lines(s) != [] ==> (EndsLine(s) <==> EndsLine(Lines(s)[|Lines(s)| - 1]))
    decreases |s|
  {
    if '\n' in s {
      var l, rest := FirstLine(s);
      LinesCons(l, rest);
      LinesAreLaid(rest);
      LaidCons(l, Lines(rest));
      EndOfRest(l, rest);
    } else if s != "" {
      LinesOfLine(s);
    }
  }

  lemma {:induction false} ConcatOfConcat(a: seq<string>, b: seq<string>)
    ensures Concat(a + b) == Concat(a) + Concat(b)
  {
    if a == [] {
      assert a + b == b;
    } else {
      assert (a + b)[1..] == a[1..] + b;
      ConcatOfConcat(a[1..], b);
    }
  }

  /** Splitting into lines distributes over concatenation at a line boundary. */
  lemma LinesOfConcat(a: string, b: string)
    requires a == "" || EndsLine(a)
    ensures Lines(a + b) == Lines(a) + Lines(b)
  {
    var x, y := Lines(a), Lines(b);
    LinesAreLaid(a);
    LinesAreLaid(b);
    ConcatLines(a);
    ConcatLines(b);
    ConcatOfConcat(x, y);
    LaidTogether(x, y);
    LinesConcat(x + y);
  }

  lemma LaidTogether(x: seq<string>, y: seq<string>)
    requires Laid(x) && Laid(y) && (x == [] || EndsLine(x[|x| - 1]))
    ensures Laid(x + y)
  {
  }
}
