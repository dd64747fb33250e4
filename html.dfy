/**
 * The text the fortunes page is made of: `htmlspecialchars($s, ENT_QUOTES)`,
 * which replaces the five characters of HTML's syntax by character
 * references (section 13.1.4 of the HTML Living Standard), and the decimal
 * form in which PHP interpolates an integer into a string.
 */
module Html {

  /** The characters `htmlspecialchars` replaces when ENT_QUOTES is given. */
  predicate Special(c: char) {
    c == '&' || c == '<' || c == '>' || c == '"' || c == '\''
  }

  /** Characters that would open a tag or end an attribute value. */
  predicate Markup(c: char) {
    c == '<' || c == '>' || c == '"' || c == '\''
  }

  function EscapeChar(c: char): (r: string)
    ensures |r| >= 1
    ensures forall i :: 0 <= i < |r| ==> !Markup(r[i])
  {
    match c
    case '&' => "&amp;"
    case '<' => "&lt;"
    case '>' => "&gt;"
    case '"' => "&quot;"
    case '\'' => "&#039;"
    case _ => [c]
  }

  /** `htmlspecialchars($s, ENT_QUOTES, 'UTF-8')`. */
  function Escape(s: string): (r: string)
    ensures |r| >= |s|
    ensures forall i :: 0 <= i < |r| ==> !Markup(r[i])
    ensures (forall i :: 0 <= i < |s| ==> !Special(s[i])) ==> r == s
  {
    if s == [] then []
    else
      var head, tail := EscapeChar(s[0]), Escape(s[1..]);
      assert forall i :: 0 <= i < |head + tail| ==> (head + tail)[i] == if i < |head| then head[i] else tail[i - |head|];
      head + tail
  }

  /** Reads the five character references back; every other character stands for itself. */
  function Unescape(s: string): (r: string)
    decreases |s|
  {
    if s == [] then []
    else if |s| >= 5 && s[..5] == "&amp;" then "&" + Unescape(s[5..])
    else if |s| >= 4 && s[..4] == "&lt;" then "<" + Unescape(s[4..])
    else if |s| >= 4 && s[..4] == "&gt;" then ">" + Unescape(s[4..])
    else if |s| >= 6 && s[..6] == "&quot;" then "\"" + Unescape(s[6..])
    else if |s| >= 6 && s[..6] == "&#039;" then "'" + Unescape(s[6..])
    else [s[0]] + Unescape(s[1..])
  }

  /** A character `htmlspecialchars` leaves alone cannot start a character reference. */
  lemma UnescapePlain(c: char, rest: string)
    requires !Special(c)
    ensures Unescape([c] + rest) == [c] + Unescape(rest)
  {
    var s := [c] + rest;
    assert s[1..] == rest;
    assert |s| >= 4 ==> s[..4][0] == c;
    assert |s| >= 5 ==> s[..5][0] == c;
    assert |s| >= 6 ==> s[..6][0] == c;
  }

  lemma UnescapeHead(c: char, rest: string)
    ensures Unescape(EscapeChar(c) + rest) == [c] + Unescape(rest)
  {
    var e := EscapeChar(c);
    var s := e + rest;
    if Special(c) {
      // the five references differ in their second character
      assert s[..|e|] == e && s[|e|..] == rest && s[1] == e[1];
      assert |s| >= 5 ==> s[..5][1] == s[1];
      assert |s| >= 4 ==> s[..4][1] == s[1];
      assert |s| >= 6 ==> s[..6][1] == s[1];
    } else {
      UnescapePlain(c, rest);
    }
  }

  /** Escaping loses nothing: the original message can be read back from the escaped one. */
  lemma {:induction false} EscapeRoundTrip(s: string)
    ensures Unescape(Escape(s)) == s
  {
    if s != [] {
      EscapeRoundTrip(s[1..]);
      UnescapeHead(s[0], Escape(s[1..]));
      assert s == [s[0]] + s[1..];
    }
  }

  function DigitChar(d: int): (c: char)
    requires 0 <= d < 10
    ensures '0' <= c <= '9'
  {
    (d + '0' as int) as char
  }

  predicate AllDigits(s: string) {
    forall i :: 0 <= i < |s| ==> '0' <= s[i] <= '9'
  }

  /** Decimal digits of `n`, most significant first, without leading zeros. */
  function NatToString(n: nat): (r: string)
    ensures |r| >= 1 && AllDigits(r)
    ensures r[0] == '0' ==> n == 0
  {
    if n < 10 then [DigitChar(n)]
    else NatToString(n / 10) + [DigitChar(n % 10)]
  }

  /** An integer interpolated into a PHP string: a minus sign for negatives, then the digits. */
  function IntToString(n: int): (r: string)
    ensures |r| >= 1
    ensures forall i :: 0 <= i < |r| ==> !Special(r[i])
  {
    if n < 0 then "-" + NatToString(-n) else NatToString(n)
  }

  function DecimalValue(s: string): nat
    requires AllDigits(s)
  {
    if s == [] then 0
    else 10 * DecimalValue(s[..|s| - 1]) + (s[|s| - 1] as int - '0' as int)
  }

  function ParseInt(s: string): int {
    if s != [] && s[0] == '-' && AllDigits(s[1..]) then -(DecimalValue(s[1..]) as int)
    else if AllDigits(s) then DecimalValue(s)
    else 0
  }

  lemma {:induction false} NatToStringRoundTrip(n: nat)
    ensures DecimalValue(NatToString(n)) == n
  {
    if n >= 10 {
      NatToStringRoundTrip(n / 10);
      var r := NatToString(n);
      assert r[..|r| - 1] == NatToString(n / 10);
    }
  }

  /** The id column can be read back as the id it was printed from. */
  lemma IntToStringRoundTrip(n: int)
    ensures ParseInt(IntToString(n)) == n
  {
    if n < 0 {
      NatToStringRoundTrip(-n);
      assert IntToString(n)[1..] == NatToString(-n);
    } else {
      NatToStringRoundTrip(n);
    }
  }

  /** Number of `<` in `s`: the tags `s` opens or closes. */
  function Tags(s: string): nat {
    multiset(s)['<']
  }
}
