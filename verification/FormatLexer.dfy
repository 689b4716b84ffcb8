/** Strings in formats: between quotes, with the quote itself doubled, or counted
as in 5Hhello. */
module FormatLexer {
  /** The characters the lexer knows. */
  predicate Known(c: char) { 3 as char <= c <= 255 as char }

  predicate AllKnown(s: string) { forall i :: 0 <= i < |s| ==> Known(s[i]) }

  /** The text of a token and the input behind it. */
  datatype Scan = Token(text: string, rest: string) | Bad

  function Longer(c: char, r: Scan): (res: Scan) { if r.Bad? then Bad else Token([c] + r.text, r.rest) }

  // ----- quoted strings -----

  /** What is scanned behind the opening quote q. */
  function Body(q: char, s: string): (r: Scan)
    decreases |s|
  {
    if s == "" then Bad
    else if s[0] == q && 2 <= |s| && s[1] == q then Longer(q, Body(q, s[2..]))
    else if s[0] == q then Token("", s[1..])
    else if Known(s[0]) then Longer(s[0], Body(q, s[1..]))
    else Bad
  }

  function Quoted(s: string): (r: Scan) {
    if s != "" && (s[0] == '"' || s[0] == '\'') then Body(s[0], s[1..]) else Bad
  }

  /** How a text is written between quotes. */
  function Doubled(q: char, s: string): (r: string) {
    if s == "" then "" else (if s[0] == q then [q, q] else [s[0]]) + Doubled(q, s[1..])
  }

  /** Only the quote itself is written twice. */
  lemma {:induction false} DoubledQuotes(q: char, s: string, t: string)
    ensures q !in s ==> Doubled(q, s) == s
    ensures Doubled(q, s + [q] + t) == Doubled(q, s) + [q, q] + Doubled(q, t)
    decreases |s|
  {
    var u := s + [q] + t;
    if s == "" {
      assert u == [q] + t && u[1..] == t;
    } else {
      assert u[1..] == s[1..] + [q] + t;
      assert [s[0]] + s[1..] == s;
      DoubledQuotes(q, s[1..], t);
    }
  }

  /** A quoted text reads back, unless another quote follows at once. */
  lemma {:induction false} BodyRoundTrip(q: char, s: string, rest: string)
    requires AllKnown(s) && (rest == "" || rest[0] != q)
    ensures Body(q, Doubled(q, s) + [q] + rest) == Token(s, rest)
    decreases |s|
  {
    var t := Doubled(q, s) + [q] + rest;
    if s == "" {
      assert t == [q] + rest;
    } else {
      BodyRoundTrip(q, s[1..], rest);
      var u := Doubled(q, s[1..]) + [q] + rest;
      if s[0] == q {
        assert t == [q, q] + u && t[2..] == u;
      } else {
        assert t == [s[0]] + u && t[1..] == u;
      }
      assert [s[0]] + s[1..] == s;
    }
  }

  lemma QuotedRoundTrip(q: char, s: string, rest: string)
    requires (q == '"' || q == '\'') && AllKnown(s) && (rest == "" || rest[0] != q)
    ensures Quoted([q] + Doubled(q, s) + [q] + rest) == Token(s, rest)
  {
    BodyRoundTrip(q, s, rest);
    var t := [q] + Doubled(q, s) + [q] + rest;
    assert t[1..] == Doubled(q, s) + [q] + rest;
  }

  /** Whatever is scanned is some text, written with doubled quotes: nothing else is accepted. */
  lemma {:induction false} BodyIsDoubled(q: char, s: string)
    requires Body(q, s).Token?
    ensures var r := Body(q, s); s == Doubled(q, r.text) + [q] + r.rest && (r.rest == "" || r.rest[0] != q)
    decreases |s|
  {
    if s[0] == q && 2 <= |s| && s[1] == q {
      BodyIsDoubled(q, s[2..]);
      var r := Body(q, s[2..]);
      assert ([q] + r.text)[1..] == r.text;
      assert s == [q, q] + s[2..];
    } else if s[0] == q {
      assert s == [q] + s[1..];
    } else {
      BodyIsDoubled(q, s[1..]);
      var r := Body(q, s[1..]);
      assert ([s[0]] + r.text)[1..] == r.text;
      assert s == [s[0]] + s[1..];
    }
  }

  // ----- counted strings -----

  predicate IsDigit(c: char) { '0' <= c <= '9' }

  function DigitsAt(s: string): (k: nat)
    ensures k <= |s|
  {
    if s != "" && IsDigit(s[0]) then 1 + DigitsAt(s[1..]) else 0
  }

  /** The number written by some digits. */
  function Number(ds: string): (r: nat)
    requires forall i :: 0 <= i < |ds| ==> IsDigit(ds[i])
  {
    if ds == "" then 0
    else
      assert IsDigit(ds[|ds| - 1]);
      10 * Number(ds[..|ds| - 1]) + (ds[|ds| - 1] as int - '0' as int)
  }

  /** Digits count ten times as much one place further left. */
  lemma BaseTen(ds: string, d: char)
    requires (forall i :: 0 <= i < |ds| ==> IsDigit(ds[i])) && IsDigit(d)
    ensures Number(ds + [d]) == 10 * Number(ds) + Number([d])
    ensures Number([d]) == d as int - '0' as int
  {
    assert (ds + [d])[..|ds|] == ds;
    assert [d][..0] == "";
  }

  function Decimal(n: nat): (ds: string)
    ensures ds != "" && forall i :: 0 <= i < |ds| ==> IsDigit(ds[i])
  {
    var d := ['0' + (n % 10) as char];
    if n < 10 then d else Decimal(n / 10) + d
  }

  lemma {:induction false} DecimalRoundTrip(n: nat)
    ensures Number(Decimal(n)) == n
    decreases n
  {
    var ds := Decimal(n);
    var d := '0' + (n % 10) as char;
    assert ds[|ds| - 1] == d && d as int - '0' as int == n % 10;
    if n < 10 {
      assert ds[..|ds| - 1] == "";
    } else {
      DecimalRoundTrip(n / 10);
      assert ds[..|ds| - 1] == Decimal(n / 10);
    }
  }

  lemma {:induction false} DigitsThen(ds: string, s: string)
    requires (forall i :: 0 <= i < |ds| ==> IsDigit(ds[i])) && (s == "" || !IsDigit(s[0]))
    ensures DigitsAt(ds + s) == |ds|
    decreases |ds|
  {
    if ds == "" {
      assert ds + s == s;
    } else {
      assert (ds + s)[1..] == ds[1..] + s;
      DigitsThen(ds[1..], s);
    }
  }

  lemma {:induction false} DigitsAtSound(s: string)
    ensures DigitsAt(s) <= |s| && forall i :: 0 <= i < DigitsAt(s) ==> IsDigit(s[i])
    decreases |s|
  {
    if s != "" && IsDigit(s[0]) {
      DigitsAtSound(s[1..]);
    }
  }

  /** The first n characters, fewer if the input ends or has an unknown character. */
  function Chars(s: string, n: nat): (r: string) {
    if n == 0 || s == "" || !Known(s[0]) then "" else [s[0]] + Chars(s[1..], n - 1)
  }

  lemma {:induction false} CharsOf(s: string, rest: string)
    requires AllKnown(s)
    ensures Chars(s + rest, |s|) == s
    decreases |s|
  {
    if s != "" {
      assert (s + rest)[1..] == s[1..] + rest;
      CharsOf(s[1..], rest);
    }
  }

  lemma {:induction false} CharsShort(s: string, n: nat)
    ensures |Chars(s, n)| <= n && Chars(s, n) <= s && AllKnown(Chars(s, n))
    ensures var k := |Chars(s, n)|; k == n || k == |s| || !Known(s[k])
    decreases n
  {
    if !(n == 0 || s == "" || !Known(s[0])) {
      CharsShort(s[1..], n - 1);
    }
  }

  /** A number, and behind an H that many characters; at least one if any are asked for. */
  function Counted(s: string): (r: Scan) {
    var k := DigitsAt(s);
    DigitsAtSound(s);
    if k == 0 || k == |s| || (s[k] != 'H' && s[k] != 'h') then Bad
    else
      var t := Chars(s[k + 1..], Number(s[..k]));
      CharsShort(s[k + 1..], Number(s[..k]));
      if t == "" && Number(s[..k]) > 0 then Bad else Token(t, s[k + 1 + |t|..])
  }

  lemma CountedParts(ds: string, h: char, s: string, rest: string, t: string)
    requires (forall i :: 0 <= i < |ds| ==> IsDigit(ds[i])) && (h == 'H' || h == 'h') && t == ds + [h] + s + rest
    ensures DigitsAt(t) == |ds| < |t| && t[..|ds|] == ds && t[|ds|] == h
    ensures t[|ds| + 1..] == s + rest && t[|ds| + 1 + |s|..] == rest
  {
    assert t == ds + ([h] + s + rest);
    DigitsThen(ds, [h] + s + rest);
  }

  /** A counted text reads back, whatever follows. */
  lemma CountedRoundTrip(s: string, rest: string, h: char)
    requires AllKnown(s) && (h == 'H' || h == 'h')
    ensures Counted(Decimal(|s|) + [h] + s + rest) == Token(s, rest)
  {
    CountedParts(Decimal(|s|), h, s, rest, Decimal(|s|) + [h] + s + rest);
    DecimalRoundTrip(|s|);
    CharsOf(s, rest);
  }

  // ----- the lexer -----

  class FMTLexer {
    const input: string
    var pos: nat
    var text: string

    ghost predicate Valid()
      reads this
    {
      pos <= |input|
    }

    constructor (s: string)
      ensures Valid() && input == s && pos == 0 && text == ""
    {
      input, pos, text := s, 0, "";
    }

    /** The character some places ahead is c. */
    method Ahead(k: nat, c: char) returns (b: bool)
      requires Valid()
      ensures b <==> pos + k < |input| && input[pos + k] == c
    {
      b := pos + k < |input| && input[pos + k] == c;
    }

    /** A quoted string: its text is added to the token's, without the quotes. */
    method MString() returns (ok: bool)
      requires Valid()
      modifies this
      ensures Valid() && ok == Quoted(old(input[pos..])).Token?
      ensures ok
          ==> text == old(text) + Quoted(old(input[pos..])).text && input[pos..] == Quoted(old(input[pos..])).rest
    {
      if pos == |input| || (input[pos] != '"' && input[pos] != '\'') {
        return false;
      }
      var q := input[pos];
      assert input[pos..][1..] == input[pos + 1..];
      pos := pos + 1;
      ok := Inside(q);
    }

    /** Up to and with the closing quote. */
    method Inside(q: char) returns (ok: bool)
      requires Valid()
      modifies this
      ensures Valid() && ok == Body(q, old(input[pos..])).Token?
      ensures ok
          ==> text == old(text) + Body(q, old(input[pos..])).text && input[pos..] == Body(q, old(input[pos..])).rest
    {
      ghost var all, before := Body(q, input[pos..]), text;
      var more := true;
      while more
        invariant Valid() && before <= text && all == Prefixed(before, text, Body(q, input[pos..]))
        invariant !more
            ==> Body(q, input[pos..]) == if pos < |input| && input[pos] == q then Token("", input[pos + 1..]) else Bad
        decreases |input| - pos, more
      {
        more := Next(q, before);
      }
      ok := pos < |input| && input[pos] == q;
      if ok {
        assert text == before + text[|before|..];
        pos := pos + 1;
      }
    }

    /** One character of the text, if there is one: a doubled quote, or any other known character. */
    method Next(q: char, ghost before: string) returns (more: bool)
      requires Valid() && before <= text
      modifies this
      ensures Valid() && before <= text && old(pos) <= pos && (more ==> old(pos) < pos)
      ensures Prefixed(before, text, Body(q, input[pos..])) == old(Prefixed(before, text, Body(q, input[pos..])))
      ensures !more
          ==> Body(q, input[pos..]) == if pos < |input| && input[pos] == q then Token("", input[pos + 1..]) else Bad
    {
      more := true;
      var one := Ahead(0, q);
      var two := Ahead(1, q);
      ghost var t := text;
      if one && two {
        assert input[pos..][2..] == input[pos + 2..];
        text := text + [q];
        pos := pos + 2;
        PrefixedMore(before, t, q, Body(q, input[pos..]));
      } else if pos < |input| && !one && Known(input[pos]) {
        assert input[pos..][1..] == input[pos + 1..];
        text := text + [input[pos]];
        pos := pos + 1;
        PrefixedMore(before, t, input[pos - 1], Body(q, input[pos..]));
      } else {
        more := false;
        assert pos < |input| ==> input[pos..][1..] == input[pos + 1..];
      }
    }

    /** The digits of a number. */
    method Digits() returns (ds: string)
      requires Valid()
      modifies this`pos
      ensures Valid() && pos == old(pos) + |ds| && ds == input[old(pos)..pos] && |ds| == DigitsAt(input[old(pos)..])
      ensures forall j :: 0 <= j < |ds| ==> IsDigit(ds[j])
    {
      var start := pos;
      ghost var s := input[pos..];
      while pos < |input| && IsDigit(input[pos])
        invariant start <= pos <= |input| && forall j :: 0 <= j < pos - start ==> IsDigit(s[j])
        decreases |input| - pos
      {
        assert s[pos - start] == input[pos];
        pos := pos + 1;
      }
      ds := input[start..pos];
      if pos < |input| {
        assert s[pos - start] == input[pos];
        DigitsStep(s, pos - start);
      } else {
        DigitsAll(s);
      }
      assert forall j :: 0 <= j < |ds| ==> ds[j] == s[j];
    }

    /** A number, or the counted string it begins: then the digits are not part of the text. */
    method MNumber() returns (ok: bool, isString: bool)
      requires Valid()
      modifies this
      ensures var s := old(input[pos..]); var k := DigitsAt(s);
              && Valid() && (isString <==> 0 < k < |s| && (s[k] == 'H' || s[k] == 'h'))
              && (!isString ==> ok && text == old(text) + s[..k] && pos == old(pos) + k)
              && (isString ==> ok == Counted(s).Token?)
              && (isString && ok ==> text == old(text) + Counted(s).text && input[pos..] == Counted(s).rest)
    {
      ghost var s, start := input[pos..], pos;
      var ds := Digits();
      assert ds == s[..|ds|];
      isString := |ds| > 0 && pos < |input| && (input[pos] == 'H' || input[pos] == 'h');
      assert pos < |input| ==> input[pos] == s[|ds|];
      if !isString {
        text := text + ds;
        ok := true;
        return;
      }
      pos := pos + 1;
      assert input[pos..] == s[|ds| + 1..];
      ok := Characters(Number(ds));
      assert input[pos..] == s[pos - start..];
    }

    /** A counted string, behind its number: at most n characters. */
    method Characters(n: nat) returns (ok: bool)
      requires Valid()
      modifies this
      ensures Valid() && text == old(text) + Chars(old(input[pos..]), n)
          && pos == old(pos) + |Chars(old(input[pos..]), n)|
      ensures ok <==> n == 0 || Chars(old(input[pos..]), n) != ""
    {
      var i := 0;
      ghost var all, before, start := Chars(input[pos..], n), text, pos;
      var more := true;
      while more && i < n
        invariant Valid() && i <= n && pos == start + i && |text| == |before| + i && before <= text
        invariant before + all == text + Chars(input[pos..], n - i)
        invariant !more ==> pos == |input| || !Known(input[pos])
        decreases n - i, more
      {
        if pos < |input| && Known(input[pos]) {
          assert input[pos..][1..] == input[pos + 1..];
          text := text + [input[pos]];
          pos := pos + 1;
          i := i + 1;
        } else {
          more := false;
        }
      }
      assert before + all == text;
      ok := n == 0 || i > 0;
    }
  }

  lemma {:induction false} DigitsStep(s: string, i: nat)
    requires i < |s| && (forall j :: 0 <= j < i ==> IsDigit(s[j]))
    ensures if IsDigit(s[i]) then i < DigitsAt(s) else DigitsAt(s) == i
    decreases |s|
  {
    if i > 0 {
      DigitsStep(s[1..], i - 1);
    }
  }

  lemma {:induction false} DigitsAll(s: string)
    requires forall j :: 0 <= j < |s| ==> IsDigit(s[j])
    ensures DigitsAt(s) == |s|
    decreases |s|
  {
    if s != "" {
      DigitsAll(s[1..]);
    }
  }

  /** The token when before was there already and text has been scanned since. */
  function Prefixed(before: string, text: string, r: Scan): (res: Scan) {
    if r.Bad? || !(before <= text) then Bad else Token(text[|before|..] + r.text, r.rest)
  }

  lemma PrefixedMore(before: string, text: string, c: char, r: Scan)
    requires before <= text
    ensures before <= text + [c] && Prefixed(before, text, Longer(c, r)) == Prefixed(before, text + [c], r)
  {
    if r.Token? {
      assert (text + [c])[|before|..] == text[|before|..] + [c];
      assert text[|before|..] + ([c] + r.text) == (text[|before|..] + [c]) + r.text;
    }
  }
}
