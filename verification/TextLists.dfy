/**
 The comma-separated list parser of the job search endpoint.
 */
module TextLists {

  /** Parts put back together with the separator between them. */
  function Join(parts: seq<string>, sep: char): string {
    if parts == [] then ""
    else if |parts| == 1 then parts[0]
    else Join(parts[..|parts| - 1], sep) + [sep] + parts[|parts| - 1]
  }

  predicate Free(s: string, sep: char) {
    forall i :: 0 <= i < |s| ==> s[i] != sep
  }

  predicate AllFree(parts: seq<string>, sep: char) {
    forall i :: 0 <= i < |parts| ==> Free(parts[i], sep)
  }

  lemma JoinAppend(parts: seq<string>, last: string, sep: char)
    requires parts != []
    ensures Join(parts + [last], sep) == Join(parts, sep) + [sep] + last
  {
    assert (parts + [last])[..|parts|] == parts;
  }

  /** The parts found so far, joined and followed by a separator, are the text before `start`. */
  ghost predicate SplitUpTo(s: string, parts: seq<string>, start: nat, sep: char)
    requires start <= |s|
  {
    AllFree(parts, sep) && if parts == [] then start == 0 else Join(parts, sep) + [sep] == s[..start]
  }

  lemma PartJoins(s: string, parts: seq<string>, start: nat, i: nat, sep: char)
    requires start <= i <= |s| && SplitUpTo(s, parts, start, sep)
    ensures Join(parts + [s[start..i]], sep) == s[..i]
  {
    if parts != [] {
      JoinAppend(parts, s[start..i], sep);
      assert s[..i] == s[..start] + s[start..i];
    }
  }

  lemma NextPart(s: string, parts: seq<string>, start: nat, i: nat, sep: char)
    requires start <= i < |s| && SplitUpTo(s, parts, start, sep) && Free(s[start..i], sep) && s[i] == sep
    ensures SplitUpTo(s, parts + [s[start..i]], i + 1, sep)
  {
    PartJoins(s, parts, start, i, sep);
    assert s[..i + 1] == s[..i] + [sep];
  }

  /** Splitting undoes joining: the parts are free of the separator and join to the text. */
  method SplitString(s: string, sep: char) returns (result: seq<string>)
    ensures result != [] && AllFree(result, sep) && Join(result, sep) == s
  {
    result := [];
    var start: nat := 0;
    for i := 0 to |s|
      invariant start <= i && SplitUpTo(s, result, start, sep) && Free(s[start..i], sep)
    {
      if s[i] == sep {
        NextPart(s, result, start, i, sep);
        result := result + [s[start..i]];
        start := i + 1;
      } else {
        assert s[start..i + 1] == s[start..i] + [s[i]];
      }
    }
    PartJoins(s, result, start, |s|, sep);
    assert s[start..|s|] == s[start..] && s[..|s|] == s;
    result := result + [s[start..]];
  }

  lemma EarlierSeparator(a: string, b: string, x: string, y: string, sep: char)
    requires a + [sep] + x == b + [sep] + y && |a| < |b|
    ensures !Free(x, sep)
  {
    assert (a + [sep] + x)[|b|] == x[|b| - |a| - 1];
  }

  lemma LastSeparator(a: string, b: string, x: string, y: string, sep: char)
    requires a + [sep] + x == b + [sep] + y && Free(x, sep) && Free(y, sep)
    ensures a == b && x == y
  {
    if |a| < |b| {
      EarlierSeparator(a, b, x, y, sep);
    } else if |b| < |a| {
      EarlierSeparator(b, a, y, x, sep);
    } else {
      var s := a + [sep] + x;
      assert a == s[..|a|] == (b + [sep] + y)[..|b|] == b;
      assert x == s[|a| + 1..] == (b + [sep] + y)[|b| + 1..] == y;
    }
  }

  lemma {:induction false} JoinHasSeparator(parts: seq<string>, sep: char)
    requires |parts| > 1
    ensures !Free(Join(parts, sep), sep)
  {
    var head := Join(parts[..|parts| - 1], sep);
    assert Join(parts, sep)[|head|] == sep;
  }

  /** There is only one way to split a text: together with SplitString's contract, splitting and joining are inverse. */
  lemma {:induction false} SplitUnique(a: seq<string>, b: seq<string>, sep: char)
    requires a != [] && b != [] && AllFree(a, sep) && AllFree(b, sep) && Join(a, sep) == Join(b, sep)
    ensures a == b
  {
    if |a| > 1 && |b| > 1 {
      var a', b' := a[..|a| - 1], b[..|b| - 1];
      LastSeparator(Join(a', sep), Join(b', sep), a[|a| - 1], b[|b| - 1], sep);
      SplitUnique(a', b', sep);
      assert a == a' + [a[|a| - 1]] && b == b' + [b[|b| - 1]];
    } else if |a| > 1 {
      JoinHasSeparator(a, sep);
    } else if |b| > 1 {
      JoinHasSeparator(b, sep);
    }
  }
}
