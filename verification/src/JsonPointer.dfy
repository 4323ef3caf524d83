/** Escapes in JSON pointers (section 4 of RFC 6901): "~1" stands for "/" and "~0" for "~". */
module JsonPointer {
  /** Replaces every occurrence of the two characters `a` and `b` by `c`, from left to right. */
  function ReplaceAll(s: string, a: char, b: char, c: char): string {
    if |s| < 2 then s
    else if s[0] == a && s[1] == b then [c] + ReplaceAll(s[2..], a, b, c)
    else [s[0]] + ReplaceAll(s[1..], a, b, c)
  }

  /** Two passes, the slash first. */
  function DecodeJsonPointer(s: string): string {
    ReplaceAll(ReplaceAll(s, '~', '1', '/'), '~', '0', '~')
  }

  /** One pass from left to right; a tilde that starts no escape stays. */
  function Unescape(s: string): string {
    if |s| < 2 then s
    else if s[0] == '~' && s[1] == '1' then "/" + Unescape(s[2..])
    else if s[0] == '~' && s[1] == '0' then "~" + Unescape(s[2..])
    else [s[0]] + Unescape(s[1..])
  }

  function Escape(s: string): string {
    if s == "" then ""
    else (if s[0] == '~' then "~0" else if s[0] == '/' then "~1" else [s[0]]) + Escape(s[1..])
  }

  lemma {:induction false} ReplaceStep(x: char, s: string, a: char, b: char, c: char)
    requires x != a || s == "" || s[0] != b
    ensures ReplaceAll([x] + s, a, b, c) == [x] + ReplaceAll(s, a, b, c)
  {
    assert ([x] + s)[1..] == s;
  }

  lemma {:induction false} ReplacePair(s: string, a: char, b: char, c: char)
    ensures ReplaceAll([a, b] + s, a, b, c) == [c] + ReplaceAll(s, a, b, c)
  {
    assert ([a, b] + s)[2..] == s;
  }

  /** The first character after a pass, unless it is the replacement, was the first before. */
  lemma {:induction false} ReplacedHead(s: string, a: char, b: char, c: char)
    ensures |ReplaceAll(s, a, b, c)| > 0 <==> |s| > 0
    ensures |s| > 0 ==> ReplaceAll(s, a, b, c)[0] == s[0] || (ReplaceAll(s, a, b, c)[0] == c && s[0] == a)
  {
  }

  /** MAIN RESULT. The two passes and the single pass agree on every string. */
  lemma {:induction false} TwoPassesAreOne(s: string)
    ensures DecodeJsonPointer(s) == Unescape(s)
    decreases |s|
  {
    if |s| >= 2 {
      if s[0] == '~' && s[1] == '1' {
        TwoPassesAreOne(s[2..]);
        ReplaceStep('/', ReplaceAll(s[2..], '~', '1', '/'), '~', '0', '~');
      } else if s[0] == '~' && s[1] == '0' {
        TwoPassesAreOne(s[2..]);
        assert s[1..] == ['0'] + s[2..];
        ReplaceStep('0', s[2..], '~', '1', '/');
        var rest := ReplaceAll(s[2..], '~', '1', '/');
        assert ['~'] + (['0'] + rest) == ['~', '0'] + rest;
        ReplacePair(rest, '~', '0', '~');
      } else {
        TwoPassesAreOne(s[1..]);
        ReplacedHead(s[1..], '~', '1', '/');
        ReplaceStep(s[0], ReplaceAll(s[1..], '~', '1', '/'), '~', '0', '~');
      }
    }
  }

  lemma {:induction false} UnescapeStep(x: char, s: string)
    requires x != '~'
    ensures Unescape([x] + s) == [x] + Unescape(s)
  {
    assert ([x] + s)[1..] == s;
  }

  lemma {:induction false} UnescapeEscape(s: string)
    ensures Unescape(Escape(s)) == s
  {
    if s != "" {
      UnescapeEscape(s[1..]);
      var rest := Escape(s[1..]);
      if s[0] == '~' {
        assert ("~0" + rest)[2..] == rest;
      } else if s[0] == '/' {
        assert ("~1" + rest)[2..] == rest;
      } else {
        UnescapeStep(s[0], rest);
      }
    }
  }

  /** Decoding inverts escaping on every string. */
  lemma {:induction false} DecodeInvertsEscape(s: string)
    ensures DecodeJsonPointer(Escape(s)) == s
  {
    UnescapeEscape(s);
    TwoPassesAreOne(Escape(s));
  }

  /** No slash, and every tilde starts an escape. */
  predicate WellEscaped(s: string) {
    if s == "" then true
    else if s[0] == '~' then |s| >= 2 && (s[1] == '0' || s[1] == '1') && WellEscaped(s[2..])
    else s[0] != '/' && WellEscaped(s[1..])
  }

  lemma {:induction false} EscapeIsWellEscaped(s: string)
    ensures WellEscaped(Escape(s))
  {
    if s != "" {
      EscapeIsWellEscaped(s[1..]);
      var rest := Escape(s[1..]);
      if s[0] == '~' {
        assert ("~0" + rest)[2..] == rest;
      } else if s[0] == '/' {
        assert ("~1" + rest)[2..] == rest;
      } else {
        assert ([s[0]] + rest)[1..] == rest;
      }
    }
  }

  lemma {:induction false} EscapeStep(x: char, s: string)
    ensures Escape([x] + s) == (if x == '~' then "~0" else if x == '/' then "~1" else [x]) + Escape(s)
  {
    assert ([x] + s)[1..] == s;
  }

  lemma {:induction false} EscapeUnescape(s: string)
    requires WellEscaped(s)
    ensures Escape(Unescape(s)) == s
    decreases |s|
  {
    if s != "" {
      if s[0] == '~' {
        EscapeUnescape(s[2..]);
        EscapeStep(if s[1] == '1' then '/' else '~', Unescape(s[2..]));
        assert s == [s[0], s[1]] + s[2..];
      } else {
        EscapeUnescape(s[1..]);
        EscapeStep(s[0], Unescape(s[1..]));
        assert s == [s[0]] + s[1..];
        UnescapeStep(s[0], s[1..]);
      }
    }
  }

  /** Escaping inverts decoding exactly on well-escaped strings. */
  lemma {:induction false} EscapeInvertsDecodeIff(s: string)
    ensures Escape(DecodeJsonPointer(s)) == s <==> WellEscaped(s)
  {
    TwoPassesAreOne(s);
    EscapeIsWellEscaped(Unescape(s));
    if WellEscaped(s) {
      EscapeUnescape(s);
    }
  }

  // ----- only the slash escaped

  /** Each "/" written as "~1". */
  function Slashed(k: string): string {
    if k == "" then "" else (if k[0] == '/' then "~1" else [k[0]]) + Slashed(k[1..])
  }

  predicate HasPair(k: string) {
    exists i :: 0 <= i < |k| - 1 && k[i] == '~' && k[i + 1] == '1'
  }

  lemma {:induction false} SlashedHead(k: string)
    ensures Slashed(k) != "" <==> k != ""
    ensures k != "" ==> Slashed(k)[0] == if k[0] == '/' then '~' else k[0]
  {
  }

  /** One pass for the slash. */
  function Fixed(s: string): string {
    ReplaceAll(s, '~', '1', '/')
  }

  lemma {:induction false} SlashedPair(k: string)
    requires Fixed(Slashed(k)) == Fixed(k)
    ensures Fixed(Slashed(['~', '1'] + k)) == Fixed(['~', '1'] + k)
  {
    assert (['~', '1'] + k)[1..] == ['1'] + k && (['1'] + k)[1..] == k;
    assert Slashed(['~', '1'] + k) == ['~', '1'] + Slashed(k);
    ReplacePair(Slashed(k), '~', '1', '/');
    ReplacePair(k, '~', '1', '/');
  }

  lemma {:induction false} SlashedStep(x: char, k: string)
    requires Fixed(Slashed(k)) == Fixed(k) && (x != '~' || k == "" || k[0] != '1')
    ensures Fixed(Slashed([x] + k)) == Fixed([x] + k)
  {
    assert ([x] + k)[1..] == k;
    ReplaceStep(x, k, '~', '1', '/');
    if x == '/' {
      assert Slashed([x] + k) == ['~', '1'] + Slashed(k);
      ReplacePair(Slashed(k), '~', '1', '/');
    } else {
      SlashedHead(k);
      ReplaceStep(x, Slashed(k), '~', '1', '/');
    }
  }

  lemma {:induction false} ReplaceSlashed(k: string)
    ensures Fixed(Slashed(k)) == Fixed(k)
    decreases |k|
  {
    if |k| >= 2 && k[0] == '~' && k[1] == '1' {
      ReplaceSlashed(k[2..]);
      SlashedPair(k[2..]);
      assert k == ['~', '1'] + k[2..];
    } else if k != "" {
      ReplaceSlashed(k[1..]);
      SlashedStep(k[0], k[1..]);
      assert k == [k[0]] + k[1..];
    }
  }

  lemma {:induction false} PairStep(x: char, k: string)
    requires x != '~' || k == "" || k[0] != '1'
    ensures HasPair([x] + k) <==> HasPair(k)
  {
    var s := [x] + k;
    if i :| 0 <= i < |s| - 1 && s[i] == '~' && s[i + 1] == '1' {
      assert i > 0 && k[i - 1] == '~' && k[i] == '1';
    }
    if i :| 0 <= i < |k| - 1 && k[i] == '~' && k[i + 1] == '1' {
      assert s[i + 1] == '~' && s[i + 2] == '1';
    }
  }

  lemma {:induction false} ReplaceNothingIff(k: string)
    ensures |Fixed(k)| <= |k| && (Fixed(k) == k <==> !HasPair(k))
    decreases |k|
  {
    if |k| >= 2 {
      if k[0] == '~' && k[1] == '1' {
        ReplaceNothingIff(k[2..]);
      } else {
        ReplaceNothingIff(k[1..]);
        PairStep(k[0], k[1..]);
        assert k == [k[0]] + k[1..];
      }
    }
  }

  lemma {:induction false} Associates(a: string, b: string, c: string)
    ensures a + b + c == a + (b + c)
  {
  }

  lemma {:induction false} HeadOf(a: string, rest: string)
    ensures a != "" ==> (a + rest)[0] == a[0]
  {
  }

  lemma {:induction false} AroundPair(a: string, rest: string, more: string)
    requires Fixed(a + rest) == Fixed(a) + more
    ensures Fixed(['~', '1'] + a + rest) == Fixed(['~', '1'] + a) + more
  {
    Associates(['~', '1'], a, rest);
    Associates(['/'], Fixed(a), more);
    ReplacePair(a + rest, '~', '1', '/');
    ReplacePair(a, '~', '1', '/');
  }

  lemma {:induction false} AroundStep(x: char, a: string, rest: string, more: string)
    requires Fixed(a + rest) == Fixed(a) + more && rest != "" && (x != '~' || (a + rest)[0] != '1')
    ensures Fixed([x] + a + rest) == Fixed([x] + a) + more
  {
    Associates([x], a, rest);
    Associates([x], Fixed(a), more);
    HeadOf(a, rest);
    var u := a + rest;
    ReplaceStep(x, u, '~', '1', '/');
    ReplaceStep(x, a, '~', '1', '/');
  }

  /** A slash is no part of an escape: what is before and behind it is replaced on its own. */
  lemma {:induction false} ReplaceAround(a: string, b: string)
    ensures Fixed(a + (['/'] + b)) == Fixed(a) + (['/'] + Fixed(b))
    decreases |a|
  {
    var rest, more := ['/'] + b, ['/'] + Fixed(b);
    if a == "" {
      assert a + rest == rest;
      ReplaceStep('/', b, '~', '1', '/');
    } else if |a| >= 2 && a[0] == '~' && a[1] == '1' {
      ReplaceAround(a[2..], b);
      AroundPair(a[2..], rest, more);
      assert a == ['~', '1'] + a[2..];
    } else {
      ReplaceAround(a[1..], b);
      assert a == [a[0]] + a[1..];
      assert a[0] == '~' ==> (a[1..] + rest)[0] != '1';
      AroundStep(a[0], a[1..], rest, more);
    }
  }

  /** A second pass of a replacement finds nothing more, if what it puts in is none of its characters. */
  lemma {:induction false} ReplaceTwice(s: string, a: char, b: char, c: char)
    requires c != a && c != b
    ensures ReplaceAll(ReplaceAll(s, a, b, c), a, b, c) == ReplaceAll(s, a, b, c)
    decreases |s|
  {
    if |s| >= 2 {
      if s[0] == a && s[1] == b {
        ReplaceTwice(s[2..], a, b, c);
        ReplaceStep(c, ReplaceAll(s[2..], a, b, c), a, b, c);
      } else {
        ReplaceTwice(s[1..], a, b, c);
        ReplacedHead(s[1..], a, b, c);
        ReplaceStep(s[0], ReplaceAll(s[1..], a, b, c), a, b, c);
      }
    }
  }
}
