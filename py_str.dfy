/**
  The two Python string builtins the receipt parser relies on:
  `str.split(sep)` with an explicit one-character separator, and
  `str.strip()` with no argument.
*/
module PyStr {

  /** Python's `str.isspace()` for one character: exactly the characters
      that `str.strip()` without an argument removes. */
  predicate IsSpace(c: char) {
    || c == ' '
    || ('\t' <= c <= '\r')
    || ('\U{1C}' <= c <= '\U{1F}')
    || c == '\U{85}'
    || c == '\U{A0}'
    || c == '\U{1680}'
    || ('\U{2000}' <= c <= '\U{200A}')
    || c == '\U{2028}'
    || c == '\U{2029}'
    || c == '\U{202F}'
    || c == '\U{205F}'
    || c == '\U{3000}'
  }

  predicate AllSpace(s: string) {
    forall i :: 0 <= i < |s| ==> IsSpace(s[i])
  }

  /** A string that `strip()` leaves as it is: empty, or not starting or
      ending with whitespace. */
  predicate IsStripped(s: string) {
    s == [] || (!IsSpace(s[0]) && !IsSpace(s[|s| - 1]))
  }

  // ---------------------------------------------------------------------
  // str.split(sep)
  // ---------------------------------------------------------------------

  /** `s.split(sep)`: cut at every occurrence of `sep`, keeping empty pieces;
      there is always at least one piece. */
  function Split(s: string, sep: char): (parts: seq<string>)
    ensures |parts| >= 1
    ensures forall p :: p in parts ==> sep !in p
    ensures |parts| == 1 <==> sep !in s
    decreases |s|
  {
    if |s| == 0 then [""]
    else
      var rest := Split(s[1..], sep);
      assert s == [s[0]] + s[1..];
      if s[0] == sep then [""] + rest
      else [[s[0]] + rest[0]] + rest[1..]
  }

  /** `sep.join(parts)`: the inverse of `Split`. */
  function Join(parts: seq<string>, sep: char): string
    decreases |parts|
  {
    if |parts| == 0 then ""
    else if |parts| == 1 then parts[0]
    else parts[0] + [sep] + Join(parts[1..], sep)
  }

  /** `Join` on a first piece and at least one more. */
  lemma JoinCons(x: string, rest: seq<string>, sep: char)
    requires rest != []
    ensures Join([x] + rest, sep) == x + [sep] + Join(rest, sep)
  {
    ConsParts(x, rest);
  }

  /** A prefix of the first piece can be taken out of a join. */
  lemma JoinPrefixFirst(p: string, x: string, rest: seq<string>, sep: char)
    ensures Join([p + x] + rest, sep) == p + Join([x] + rest, sep)
  {
    if rest != [] {
      JoinCons(p + x, rest, sep);
      JoinCons(x, rest, sep);
    }
  }

  lemma {:induction false} JoinSplit(s: string, sep: char)
    ensures Join(Split(s, sep), sep) == s
    decreases |s|
  {
    if |s| > 0 {
      ConsFirst(s);
      JoinSplit(s[1..], sep);
      var rest := Split(s[1..], sep);
      if s[0] == sep {
        JoinCons("", rest, sep);
      } else {
        ConsFirst(rest);
        JoinPrefixFirst([s[0]], rest[0], rest[1..], sep);
      }
    }
  }

  /** The head and tail of a sequence built with a first element. */
  lemma ConsParts<T>(x: T, ys: seq<T>)
    ensures ([x] + ys)[0] == x && ([x] + ys)[1..] == ys
  {
  }

  lemma TailConcat<T>(a: seq<T>, b: seq<T>)
    requires |a| > 0
    ensures (a + b)[0] == a[0] && (a + b)[1..] == a[1..] + b
  {
  }

  /** A piece free of the separator followed by the separator splits off as one part. */
  lemma {:induction false} SplitCons(a: string, b: string, sep: char)
    requires sep !in a
    ensures Split(a + [sep] + b, sep) == [a] + Split(b, sep)
    decreases |a|
  {
    var s := a + [sep] + b;
    if a == [] {
      assert s == [sep] + b;
      ConsParts(sep, b);
    } else {
      TailConcat(a + [sep], b);
      TailConcat(a, [sep]);
      SplitCons(a[1..], b, sep);
      ConsParts(a[1..], Split(b, sep));
      ConsFirst(a);
    }
  }

  lemma {:induction false} SplitNoSeparator(s: string, sep: char)
    requires sep !in s
    ensures Split(s, sep) == [s]
  {
    JoinSplit(s, sep);
  }

  /** Joining pieces that hold no separator and splitting again gives the pieces back. */
  lemma {:induction false} SplitJoin(parts: seq<string>, sep: char)
    requires |parts| >= 1
    requires forall p :: p in parts ==> sep !in p
    ensures Split(Join(parts, sep), sep) == parts
    decreases |parts|
  {
    if |parts| == 1 {
      SplitNoSeparator(parts[0], sep);
    } else {
      assert parts[0] in parts;
      assert forall p :: p in parts[1..] ==> p in parts;
      SplitJoin(parts[1..], sep);
      SplitCons(parts[0], Join(parts[1..], sep), sep);
      assert [parts[0]] + parts[1..] == parts;
    }
  }

  // ---------------------------------------------------------------------
  // str.strip()
  // ---------------------------------------------------------------------

  /** `s.strip()`: leading and trailing whitespace removed. */
  function Strip(s: string): (r: string)
    ensures IsStripped(r)
    ensures r == [] <==> AllSpace(s)
    decreases |s|
  {
    if |s| > 0 && IsSpace(s[0]) then
      assert AllSpace(s) <==> AllSpace(s[1..]) by {
        assert forall i :: 0 < i < |s| ==> s[i] == s[1..][i - 1];
      }
      Strip(s[1..])
    else if |s| > 0 && IsSpace(s[|s| - 1]) then
      assert AllSpace(s) <==> AllSpace(s[..|s| - 1]) by {
        assert forall i :: 0 <= i < |s| - 1 ==> s[i] == s[..|s| - 1][i];
      }
      Strip(s[..|s| - 1])
    else s
  }

  /** Whitespace around a text that starts and ends with a non-space is
      exactly what `Strip` removes. */
  lemma {:induction false} StripPadded(pre: string, r: string, suf: string)
    requires AllSpace(pre) && AllSpace(suf) && IsStripped(r)
    ensures Strip(pre + r + suf) == r
    decreases |pre|
  {
    if pre == [] {
      assert pre + r == r;
      StripTrailing(r, suf);
    } else {
      TailConcat(pre, r);
      TailConcat(pre + r, suf);
      StripPadded(pre[1..], r, suf);
    }
  }

  lemma {:induction false} StripTrailing(r: string, suf: string)
    requires AllSpace(suf) && IsStripped(r)
    ensures Strip(r + suf) == r
    decreases |suf|
  {
    if suf == [] {
      assert r + suf == r;
    } else if r == [] {
      assert r + suf == suf;
    } else {
      TailConcat(r, suf);
      DropLast(r, suf);
      StripBackStep(r + suf);
      StripTrailing(r, suf[..|suf| - 1]);
    }
  }

  /** One step of `Strip` at the end, when the start is not whitespace. */
  lemma StripBackStep(s: string)
    requires |s| > 0 && !IsSpace(s[0]) && IsSpace(s[|s| - 1])
    ensures Strip(s) == Strip(s[..|s| - 1])
  {
  }

  lemma DropLast<T>(a: seq<T>, b: seq<T>)
    requires |b| > 0
    ensures (a + b)[|a + b| - 1] == b[|b| - 1]
    ensures (a + b)[..|a + b| - 1] == a + b[..|b| - 1]
  {
  }

  lemma AllSpaceConcat(a: string, b: string)
    ensures AllSpace(a + b) <==> AllSpace(a) && AllSpace(b)
  {
    if AllSpace(a) && AllSpace(b) {
      forall i | 0 <= i < |a + b|
        ensures IsSpace((a + b)[i])
      {
        if i >= |a| { assert (a + b)[i] == b[i - |a|]; }
      }
    }
    if AllSpace(a + b) {
      assert forall i :: 0 <= i < |a| ==> a[i] == (a + b)[i];
      assert forall i :: 0 <= i < |b| ==> b[i] == (a + b)[|a| + i];
    }
  }

  lemma Assoc(a: string, b: string, c: string)
    ensures a + (b + c) == (a + b) + c
  {
  }

  lemma ConsFirst<T>(s: seq<T>)
    requires |s| > 0
    ensures s == [s[0]] + s[1..]
  {
  }

  lemma SnocLast<T>(s: seq<T>)
    requires |s| > 0
    ensures s == s[..|s| - 1] + [s[|s| - 1]]
  {
  }

  /** A leading space is stripped and joins the whitespace before the text. */
  lemma StripFront(s: string, pre: string, suf: string)
    requires |s| > 0 && IsSpace(s[0])
    requires AllSpace(pre) && AllSpace(suf) && s[1..] == pre + Strip(s[1..]) + suf
    ensures AllSpace([s[0]] + pre) && s == [s[0]] + pre + Strip(s) + suf
  {
    AllSpaceConcat([s[0]], pre);
    var r := Strip(s);
    assert r == Strip(s[1..]);
    ConsFirst(s);
    Assoc([s[0]], pre + r, suf);
    Assoc([s[0]], pre, r);
  }

  /** A trailing space is stripped and joins the whitespace after the text. */
  lemma StripBack(s: string, pre: string, suf: string)
    requires |s| > 0 && !IsSpace(s[0]) && IsSpace(s[|s| - 1])
    requires AllSpace(pre) && AllSpace(suf) && s[..|s| - 1] == pre + Strip(s[..|s| - 1]) + suf
    ensures AllSpace(suf + [s[|s| - 1]]) && s == pre + Strip(s) + (suf + [s[|s| - 1]])
  {
    AllSpaceConcat(suf, [s[|s| - 1]]);
    var r := Strip(s);
    assert r == Strip(s[..|s| - 1]);
    SnocLast(s);
    Assoc(pre + r, suf, [s[|s| - 1]]);
  }

  /** Every text is its stripped form with whitespace before and after:
      together with `StripPadded`, this pins `Strip` down completely. */
  lemma {:induction false} StripDecompose(s: string) returns (pre: string, suf: string)
    ensures AllSpace(pre) && AllSpace(suf)
    ensures s == pre + Strip(s) + suf
    decreases |s|
  {
    if |s| > 0 && IsSpace(s[0]) {
      var p, q := StripDecompose(s[1..]);
      StripFront(s, p, q);
      pre, suf := [s[0]] + p, q;
    } else if |s| > 0 && IsSpace(s[|s| - 1]) {
      var p, q := StripDecompose(s[..|s| - 1]);
      StripBack(s, p, q);
      pre, suf := p, q + [s[|s| - 1]];
    } else {
      pre, suf := [], [];
      assert s == [] + s + [];
    }
  }

  /** Stripping removes characters and adds none. */
  lemma StripChars(s: string, c: char)
    requires c !in s
    ensures c !in Strip(s)
  {
    var pre, suf := StripDecompose(s);
    assert forall i :: 0 <= i < |Strip(s)| ==> Strip(s)[i] == s[|pre| + i];
  }

  lemma StripOfStripped(r: string)
    requires IsStripped(r)
    ensures Strip(r) == r
  {
    assert [] + r + [] == r;
    StripPadded([], r, []);
  }

  /** The space after a comma separator is trimmed away. */
  lemma StripSpaced(r: string)
    requires IsStripped(r)
    ensures Strip(" " + r) == r
  {
    assert AllSpace(" ");
    assert " " + r + [] == " " + r;
    StripPadded(" ", r, []);
  }

  lemma StripIdempotent(s: string)
    ensures Strip(Strip(s)) == Strip(s)
  {
    StripOfStripped(Strip(s));
  }
}
