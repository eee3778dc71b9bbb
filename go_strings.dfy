/** The parts of Go's `strings` package that the core relies on: `Split`,
    `FieldsFunc`, `Join`, `TrimSpace` and `ToUpper`, over strings modelled as
    sequences of characters, with the facts about them that the rest of the
    model uses. */
module GoStrings {
  import opened Sequences

  /** `unicode.IsSpace`: the ASCII white space characters and the Unicode
      space separators that `strings.TrimSpace` removes. */
  predicate IsSpace(c: char) {
    || ('\t' <= c <= '\r') || c == ' '
    || c == '\U{0085}' || c == '\U{00A0}' || c == '\U{1680}'
    || ('\U{2000}' <= c <= '\U{200A}')
    || c == '\U{2028}' || c == '\U{2029}' || c == '\U{202F}' || c == '\U{205F}' || c == '\U{3000}'
  }

  /** No character of `s` satisfies `isSep`. */
  predicate NoneWhere(s: string, isSep: char -> bool) {
    forall i :: 0 <= i < |s| ==> !isSep(s[i])
  }

  /** Number of characters of `s` that satisfy `isSep`. */
  function CountWhere(s: string, isSep: char -> bool): nat {
    if s == [] then 0 else (if isSep(s[0]) then 1 else 0) + CountWhere(s[1..], isSep)
  }

  // ---------------------------------------------------------------------------
  // Splitting

  /** The pieces of `s` between the characters that satisfy `isSep`, empty
      pieces included: `strings.Split` when `isSep` is one character. */
  function SplitWhere(s: string, isSep: char -> bool): (parts: seq<string>)
    ensures |parts| >= 1
  {
    if s == [] then [""]
    else
      var rest := SplitWhere(s[1..], isSep);
      if isSep(s[0]) then [""] + rest
      else [[s[0]] + rest[0]] + rest[1..]
  }

  predicate IsComma(c: char) {
    c == ','
  }

  /** `strings.Split(s, ",")` */
  function SplitComma(s: string): seq<string> {
    SplitWhere(s, IsComma)
  }

  /** The non-empty elements of `parts`, in order. */
  function NonEmpty(parts: seq<string>): seq<string> {
    if parts == [] then []
    else
      var prev := NonEmpty(parts[..|parts| - 1]);
      if parts[|parts| - 1] == "" then prev else prev + [parts[|parts| - 1]]
  }

  /** `strings.FieldsFunc(s, isSep)`: the maximal runs of characters that do
      not satisfy `isSep`, which are the non-empty pieces between separators. */
  function FieldsFunc(s: string, isSep: char -> bool): seq<string> {
    NonEmpty(SplitWhere(s, isSep))
  }

  /** `strings.Join(parts, sep)` */
  function Join(parts: seq<string>, sep: string): string {
    if |parts| == 0 then ""
    else if |parts| == 1 then parts[0]
    else parts[0] + sep + Join(parts[1..], sep)
  }

  lemma {:induction false} SplitWhereNoSeparator(s: string, isSep: char -> bool)
    ensures forall k, i :: 0 <= k < |SplitWhere(s, isSep)| && 0 <= i < |SplitWhere(s, isSep)[k]| ==>
              !isSep(SplitWhere(s, isSep)[k][i])
  {
    if s != [] {
      SplitWhereNoSeparator(s[1..], isSep);
    }
  }

  /** Every piece is made of characters of `s`. */
  lemma {:induction false} SplitWhereChars(s: string, isSep: char -> bool)
    ensures forall k, i :: 0 <= k < |SplitWhere(s, isSep)| && 0 <= i < |SplitWhere(s, isSep)[k]| ==>
              SplitWhere(s, isSep)[k][i] in s
  {
    if s != [] {
      SplitWhereChars(s[1..], isSep);
      var rest := SplitWhere(s[1..], isSep);
      forall k, i | 0 <= k < |SplitWhere(s, isSep)| && 0 <= i < |SplitWhere(s, isSep)[k]|
        ensures SplitWhere(s, isSep)[k][i] in s
      {
        if !isSep(s[0]) && k == 0 && i > 0 {
          assert SplitWhere(s, isSep)[k][i] == rest[0][i - 1];
          assert rest[0][i - 1] in s[1..];
        } else if k > 0 && !isSep(s[0]) {
          assert SplitWhere(s, isSep)[k] == rest[k];
          assert rest[k][i] in s[1..];
        } else if k > 0 {
          assert SplitWhere(s, isSep)[k] == rest[k - 1];
          assert rest[k - 1][i] in s[1..];
        }
      }
    }
  }

  /** One piece more than there are separators. */
  lemma {:induction false} SplitWhereCount(s: string, isSep: char -> bool)
    ensures |SplitWhere(s, isSep)| == CountWhere(s, isSep) + 1
  {
    if s != [] {
      SplitWhereCount(s[1..], isSep);
    }
  }

  /** Joining the pieces of a comma split with "," gives the input back. */
  lemma {:induction false} SplitCommaJoin(s: string)
    ensures Join(SplitComma(s), ",") == s
  {
    if s != [] {
      SplitCommaJoin(s[1..]);
      var rest := SplitComma(s[1..]);
      if IsComma(s[0]) {
        if |rest| == 1 {
          assert Join([""] + rest, ",") == "" + "," + rest[0];
        } else {
          assert ([""] + rest)[1..] == rest;
        }
      } else {
        var parts := [[s[0]] + rest[0]] + rest[1..];
        assert parts[1..] == rest[1..];
        if |rest| == 1 {
          assert Join(parts, ",") == [s[0]] + rest[0];
        } else {
          assert Join(rest, ",") == rest[0] + "," + Join(rest[1..], ",");
          assert Join(parts, ",") == [s[0]] + rest[0] + "," + Join(rest[1..], ",");
        }
      }
    }
  }

  /** A string with no separator is a single piece. */
  lemma {:induction false} SplitWhereWhole(a: string, isSep: char -> bool)
    requires NoneWhere(a, isSep)
    ensures SplitWhere(a, isSep) == [a]
  {
    if a != [] {
      assert NoneWhere(a[1..], isSep);
      SplitWhereWhole(a[1..], isSep);
      assert [a[0]] + a[1..] == a;
    }
  }

  /** The text before the first separator is the first piece. */
  lemma {:induction false} SplitWhereAtSeparator(a: string, c: char, b: string, isSep: char -> bool)
    requires NoneWhere(a, isSep) && isSep(c)
    ensures SplitWhere(a + [c] + b, isSep) == [a] + SplitWhere(b, isSep)
  {
    if a == [] {
      assert a + [c] + b == [c] + b;
      assert ([c] + b)[1..] == b;
    } else {
      SplitWhereAtSeparator(a[1..], c, b, isSep);
      assert (a + [c] + b)[1..] == a[1..] + [c] + b;
      assert [a[0]] + a[1..] == a;
    }
  }

  // ---------------------------------------------------------------------------
  // Trimming

  /** `s` has no leading and no trailing white space. */
  predicate IsTrimmed(s: string) {
    s == [] || (!IsSpace(s[0]) && !IsSpace(s[|s| - 1]))
  }

  /** `s` without its leading white space. */
  function TrimLeft(s: string): string {
    if s != [] && IsSpace(s[0]) then TrimLeft(s[1..]) else s
  }

  /** `s` without its trailing white space. */
  function TrimRight(s: string): string {
    if s != [] && IsSpace(s[|s| - 1]) then TrimRight(s[..|s| - 1]) else s
  }

  /** `strings.TrimSpace`: `s` without its leading and trailing white space. */
  function TrimSpace(s: string): string {
    TrimRight(TrimLeft(s))
  }

  /** TrimLeft removes exactly the leading run of white space. */
  lemma {:induction false} TrimLeftSpec(s: string)
    ensures |TrimLeft(s)| <= |s| && TrimLeft(s) == s[|s| - |TrimLeft(s)|..]
    ensures TrimLeft(s) == [] || !IsSpace(TrimLeft(s)[0])
    ensures forall i :: 0 <= i < |s| - |TrimLeft(s)| ==> IsSpace(s[i])
  {
    if s != [] && IsSpace(s[0]) {
      var t := s[1..];
      TrimLeftSpec(t);
      var r := TrimLeft(t);
      assert t[|t| - |r|..] == s[|s| - |r|..];
      forall i | 0 <= i < |s| - |r| ensures IsSpace(s[i]) {
        if i > 0 {
          assert s[i] == t[i - 1];
        }
      }
    }
  }

  /** TrimRight removes exactly the trailing run of white space. */
  lemma {:induction false} TrimRightSpec(s: string)
    ensures |TrimRight(s)| <= |s| && TrimRight(s) == s[..|TrimRight(s)|]
    ensures TrimRight(s) == [] || !IsSpace(TrimRight(s)[|TrimRight(s)| - 1])
    ensures forall i :: |TrimRight(s)| <= i < |s| ==> IsSpace(s[i])
  {
    if s != [] && IsSpace(s[|s| - 1]) {
      var t := s[..|s| - 1];
      TrimRightSpec(t);
      var r := TrimRight(t);
      assert t[..|r|] == s[..|r|];
      forall i | |r| <= i < |s| ensures IsSpace(s[i]) {
        if i < |t| {
          assert s[i] == t[i];
        }
      }
    }
  }

  /** The result of TrimSpace has no white space at either end. */
  lemma TrimSpaceTrimmed(s: string)
    ensures IsTrimmed(TrimSpace(s))
  {
    var l := TrimLeft(s);
    TrimLeftSpec(s);
    TrimRightSpec(l);
    var r := TrimRight(l);
    assert r == [] || r[0] == l[0];
  }

  lemma TrimSpaceOfTrimmed(s: string)
    requires IsTrimmed(s)
    ensures TrimSpace(s) == s
  {
  }

  /** Leading white space does not survive trimming. */
  lemma TrimSpaceAfterSpace(c: char, s: string)
    requires IsSpace(c)
    ensures TrimSpace([c] + s) == TrimSpace(s)
  {
    assert ([c] + s)[1..] == s;
  }

  /** Trimming leaves nothing exactly when the string is all white space. */
  lemma TrimSpaceEmpty(s: string)
    ensures TrimSpace(s) == "" <==> forall i :: 0 <= i < |s| ==> IsSpace(s[i])
  {
    var l := TrimLeft(s);
    TrimLeftSpec(s);
    TrimRightSpec(l);

  }

  // ---------------------------------------------------------------------------
  // Upper case

  /** `unicode.ToUpper` on the characters whose upper case is ASCII: the
      ASCII letters, U+0131 (dotless i) and U+017F (long s). */
  function UpperChar(c: char): char {
    if 'a' <= c <= 'z' then (c as int - 32) as char
    else if c == '\U{0131}' then 'I'
    else if c == '\U{017F}' then 'S'
    else c
  }

  /** `strings.ToUpper` */
  function ToUpper(s: string): (u: string)
    ensures |u| == |s|
    ensures forall i :: 0 <= i < |s| ==> u[i] == UpperChar(s[i])
  {
    seq(|s|, i requires 0 <= i < |s| => UpperChar(s[i]))
  }

  /** `s` is its own upper case. */
  predicate IsUpper(s: string) {
    ToUpper(s) == s
  }

  /** Upper-casing twice is upper-casing once, and keeps white space where it was. */
  lemma ToUpperProperties(s: string)
    ensures IsUpper(ToUpper(s))
    ensures IsTrimmed(s) ==> IsTrimmed(ToUpper(s))
    ensures ToUpper(s) == "" <==> s == ""
  {
    var u := ToUpper(s);
    assert ToUpper(u) == u;
  }

  // ---------------------------------------------------------------------------
  // Trim, drop the empty pieces

  /** The trimmed parts that are not empty, in order: the loop body shared by
      `splitAndClean` and `splitTickers`. */
  function TrimmedNonEmpty(parts: seq<string>): seq<string> {
    if parts == [] then []
    else
      var prev := TrimmedNonEmpty(parts[..|parts| - 1]);
      var t := TrimSpace(parts[|parts| - 1]);
      if t == "" then prev else prev + [t]
  }

  lemma TrimmedNonEmptySnoc(parts: seq<string>, i: nat)
    requires i < |parts|
    ensures TrimmedNonEmpty(parts[..i + 1]) ==
              TrimmedNonEmpty(parts[..i]) + (if TrimSpace(parts[i]) == "" then [] else [TrimSpace(parts[i])])
  {
    assert parts[..i + 1][..i] == parts[..i];
  }

  /** No element is empty, every element is trimmed, and there are no more
      elements than parts. */
  lemma {:induction false} TrimmedNonEmptyShape(parts: seq<string>)
    ensures |TrimmedNonEmpty(parts)| <= |parts|
    ensures forall k :: 0 <= k < |TrimmedNonEmpty(parts)| ==>
              TrimmedNonEmpty(parts)[k] != "" && IsTrimmed(TrimmedNonEmpty(parts)[k])
  {
    if parts != [] {
      TrimmedNonEmptyShape(parts[..|parts| - 1]);
      TrimSpaceTrimmed(parts[|parts| - 1]);
    }
  }

  lemma {:induction false} TrimmedNonEmptyAppend(a: seq<string>, b: seq<string>)
    ensures TrimmedNonEmpty(a + b) == TrimmedNonEmpty(a) + TrimmedNonEmpty(b)
  {
    if b == [] {
      assert a + b == a;
    } else {
      assert (a + b)[..|a + b| - 1] == a + b[..|b| - 1];
      TrimmedNonEmptyAppend(a, b[..|b| - 1]);
    }
  }

  /** Every element is the trimmed form of some part. */
  lemma {:induction false} TrimmedNonEmptyFromParts(parts: seq<string>)
    ensures forall x :: x in TrimmedNonEmpty(parts) ==> exists p :: p in parts && x == TrimSpace(p)
  {
    if parts != [] {
      var init := parts[..|parts| - 1];
      var last := parts[|parts| - 1];
      TrimmedNonEmptyFromParts(init);
      forall x | x in TrimmedNonEmpty(parts)
        ensures exists p :: p in parts && x == TrimSpace(p)
      {
        if x in TrimmedNonEmpty(init) {
          var p :| p in init && x == TrimSpace(p);
          assert p in parts;
        } else {
          assert x == TrimSpace(last);
          assert last in parts;
        }
      }
    }
  }

  lemma TrimmedNonEmptySingle(x: string)
    ensures TrimmedNonEmpty([x]) == if TrimSpace(x) == "" then [] else [TrimSpace(x)]
  {
    assert [x][..0] == [];
  }

  /** The result for a prefix of the parts is a prefix of the result. */
  lemma {:induction false} TrimmedNonEmptyPrefix(parts: seq<string>, j: nat)
    requires j <= |parts|
    ensures TrimmedNonEmpty(parts[..j]) <= TrimmedNonEmpty(parts)
  {
    if j < |parts| {
      var init := parts[..|parts| - 1];
      TrimmedNonEmptyPrefix(init, j);
      assert init[..j] == parts[..j];
    } else {
      assert parts[..j] == parts;
    }
  }

  /** Order is kept: a part that survives trimming lands at the position
      given by the number of surviving parts before it. */
  lemma TrimmedNonEmptyOrder(parts: seq<string>, i: nat)
    requires i < |parts| && TrimSpace(parts[i]) != ""
    ensures |TrimmedNonEmpty(parts[..i])| < |TrimmedNonEmpty(parts)|
    ensures TrimmedNonEmpty(parts)[|TrimmedNonEmpty(parts[..i])|] == TrimSpace(parts[i])
  {
    var q := parts[..i + 1];
    assert q[..|q| - 1] == parts[..i];
    assert q[|q| - 1] == parts[i];
    assert TrimmedNonEmpty(q) == TrimmedNonEmpty(parts[..i]) + [TrimSpace(parts[i])];
    TrimmedNonEmptyPrefix(parts, i + 1);
  }

  /** The output never has more elements than the input has commas plus one. */
  lemma CleanedCommaCount(raw: string)
    ensures |TrimmedNonEmpty(SplitComma(raw))| <= CountWhere(raw, IsComma) + 1
  {
    SplitWhereCount(raw, IsComma);
    TrimmedNonEmptyShape(SplitComma(raw));
  }

  /** Input made only of white space and commas leaves nothing. */
  lemma CleanedBlank(raw: string)
    requires forall i :: 0 <= i < |raw| ==> IsSpace(raw[i]) || raw[i] == ','
    ensures TrimmedNonEmpty(SplitComma(raw)) == []
  {
    var parts := SplitComma(raw);
    SplitWhereChars(raw, IsComma);
    SplitWhereNoSeparator(raw, IsComma);
    forall k | 0 <= k < |parts|
      ensures TrimSpace(parts[k]) == ""
    {
      forall i | 0 <= i < |parts[k]| ensures IsSpace(parts[k][i]) {
        assert parts[k][i] in raw;
      }
      TrimSpaceEmpty(parts[k]);
    }
    TrimmedNonEmptyAllBlank(parts);
  }

  lemma {:induction false} TrimmedNonEmptyAllBlank(parts: seq<string>)
    requires forall k :: 0 <= k < |parts| ==> TrimSpace(parts[k]) == ""
    ensures TrimmedNonEmpty(parts) == []
  {
    if parts != [] {
      TrimmedNonEmptyAllBlank(parts[..|parts| - 1]);
    }
  }

  /** A space in front of a comma-separated list only changes its first
      piece, and trimming removes it again. */
  lemma CleanedAfterSpace(j: string)
    ensures TrimmedNonEmpty(SplitComma([' '] + j)) == TrimmedNonEmpty(SplitComma(j))
  {
    var p := SplitComma(j);
    SplitCommaAfterSpace(j);
    TrimmedNonEmptyDropSpace(p[0], p[1..]);
    assert [p[0]] + p[1..] == p;
  }

  lemma SplitCommaAfterSpace(j: string)
    ensures |SplitComma(j)| >= 1
    ensures SplitComma([' '] + j) == [[' '] + SplitComma(j)[0]] + SplitComma(j)[1..]
  {
    assert ([' '] + j)[1..] == j;
  }

  /** A space in front of the first part is trimmed away. */
  lemma TrimmedNonEmptyDropSpace(x: string, rest: seq<string>)
    ensures TrimmedNonEmpty([[' '] + x] + rest) == TrimmedNonEmpty([x] + rest)
  {
    TrimmedNonEmptyAppend([[' '] + x], rest);
    TrimmedNonEmptyAppend([x], rest);
    TrimSpaceAfterSpace(' ', x);
    TrimmedNonEmptySingle([' '] + x);
    TrimmedNonEmptySingle(x);
  }

  lemma SplitCommaJoinStep(ts: seq<string>)
    requires |ts| >= 2 && NoneWhere(ts[0], IsComma)
    ensures SplitComma(Join(ts, ", ")) == [ts[0]] + SplitComma([' '] + Join(ts[1..], ", "))
  {
    var j := Join(ts[1..], ", ");
    assert Join(ts, ", ") == ts[0] + [','] + ([' '] + j);
    SplitWhereAtSeparator(ts[0], ',', [' '] + j, IsComma);
  }

  /** Splitting at a separator character splits the two sides independently. */
  lemma {:induction false} SplitWhereConcat(a: string, c: char, b: string, isSep: char -> bool)
    requires isSep(c)
    ensures SplitWhere(a + [c] + b, isSep) == SplitWhere(a, isSep) + SplitWhere(b, isSep)
  {
    if a == [] {
      assert a + [c] + b == [c] + b;
      assert ([c] + b)[1..] == b;
    } else {
      var s := a + [c] + b;
      assert s[0] == a[0] && s[1..] == a[1..] + [c] + b;
      SplitWhereConcat(a[1..], c, b, isSep);
      var tail := SplitWhere(a[1..], isSep);
      if isSep(a[0]) {
        AppendAssoc([""], tail, SplitWhere(b, isSep));
      } else {
        HeadGlue([a[0]], tail, SplitWhere(b, isSep));
      }
    }
  }

  /** Cleaning preserves order: the cleaned pieces of `a + "," + b` are those
      of `a` followed by those of `b`. */
  lemma CleanedConcat(a: string, b: string)
    ensures TrimmedNonEmpty(SplitComma(a + "," + b)) == TrimmedNonEmpty(SplitComma(a)) + TrimmedNonEmpty(SplitComma(b))
  {
    SplitWhereConcat(a, ',', b, IsComma);
    TrimmedNonEmptyAppend(SplitComma(a), SplitComma(b));
  }

  /** Round trip: joining trimmed, comma-free, non-empty strings with ", " and
      cleaning the comma split gives the list back. */
  lemma {:induction false} CleanedJoin(ts: seq<string>)
    requires forall k :: 0 <= k < |ts| ==> ts[k] != "" && IsTrimmed(ts[k]) && NoneWhere(ts[k], IsComma)
    ensures TrimmedNonEmpty(SplitComma(Join(ts, ", "))) == ts
  {
    if ts == [] {
      CleanedBlank("");
    } else {
      TrimSpaceOfTrimmed(ts[0]);
      TrimmedNonEmptySingle(ts[0]);
      assert TrimmedNonEmpty([ts[0]]) == [ts[0]];
      if |ts| == 1 {
        SplitWhereWhole(ts[0], IsComma);
        assert ts == [ts[0]];
      } else {
        var j := Join(ts[1..], ", ");
        calc {
          TrimmedNonEmpty(SplitComma(Join(ts, ", ")));
          { SplitCommaJoinStep(ts); }
          TrimmedNonEmpty([ts[0]] + SplitComma([' '] + j));
          { TrimmedNonEmptyAppend([ts[0]], SplitComma([' '] + j)); }
          TrimmedNonEmpty([ts[0]]) + TrimmedNonEmpty(SplitComma([' '] + j));
          { CleanedAfterSpace(j); }
          TrimmedNonEmpty([ts[0]]) + TrimmedNonEmpty(SplitComma(j));
          { CleanedJoin(ts[1..]); }
          [ts[0]] + ts[1..];
          ts;
        }
      }
    }
  }
}
