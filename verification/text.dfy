/**
 * The JavaScript string operations the application relies on, written out:
 * `trim`-based blank tests, `toLowerCase`, `includes`, `startsWith`,
 * `split('/').pop()`, `slice(0, n)`, number-to-text and `parseInt`.
 */
module Text {
  import opened Wrappers

  /** The ECMAScript WhiteSpace and LineTerminator code points, which `trim` strips. */
  predicate IsJsWhitespace(c: char) {
    || c == '\t' || c == '\n' || c == '\U{000B}' || c == '\U{000C}' || c == '\r' || c == ' '
    || c == '\U{00A0}' || c == '\U{1680}' || ('\U{2000}' <= c <= '\U{200A}')
    || c == '\U{2028}' || c == '\U{2029}' || c == '\U{202F}' || c == '\U{205F}'
    || c == '\U{3000}' || c == '\U{FEFF}'
  }

  /** `trimStart`: drops the leading whitespace and nothing else. */
  function TrimStart(s: string): (r: string)
    ensures |r| <= |s| && r == s[|s| - |r|..]
    ensures r == [] || !IsJsWhitespace(r[0])
    ensures forall i :: 0 <= i < |s| - |r| ==> IsJsWhitespace(s[i])
  {
    if s != [] && IsJsWhitespace(s[0]) then TrimStart(s[1..]) else s
  }

  /** `trimEnd`: drops the trailing whitespace and nothing else. */
  function TrimEnd(s: string): (r: string)
    ensures |r| <= |s| && r == s[..|r|]
    ensures r == [] || !IsJsWhitespace(r[|r| - 1])
    ensures forall i :: |r| <= i < |s| ==> IsJsWhitespace(s[i])
  {
    if s != [] && IsJsWhitespace(s[|s| - 1]) then TrimEnd(s[..|s| - 1]) else s
  }

  function Trim(s: string): string {
    TrimEnd(TrimStart(s))
  }

  /** `!s.trim()`: the text holds nothing once trimmed. */
  predicate IsBlank(s: string) {
    Trim(s) == ""
  }

  /** A text is blank exactly when every character in it is whitespace. */
  lemma BlankIffAllWhitespace(s: string)
    ensures IsBlank(s) <==> forall i :: 0 <= i < |s| ==> IsJsWhitespace(s[i])
  {
  }

  /**
   * `toLowerCase` on one character, for the letters of Basic Latin and
   * Latin-1 (the accented capitals of Portuguese names included).
   */
  function LowerChar(c: char): char {
    if 'A' <= c <= 'Z' || ('\U{00C0}' <= c <= '\U{00DE}' && c != '\U{00D7}')
    then (c as int + 32) as char
    else c
  }

  function ToLower(s: string): (r: string)
    ensures |r| == |s|
  {
    seq(|s|, i requires 0 <= i < |s| => LowerChar(s[i]))
  }

  /** Lower-casing twice changes nothing more than lower-casing once. */
  lemma ToLowerIdempotent(s: string)
    ensures ToLower(ToLower(s)) == ToLower(s)
  {
    var once := ToLower(s);
    var twice := ToLower(once);
    forall i | 0 <= i < |s|
      ensures twice[i] == once[i]
    {
      assert once[i] == LowerChar(s[i]);
    }
  }

  /** Lower-casing neither creates nor removes whitespace, so blankness survives it. */
  lemma ToLowerKeepsBlankness(s: string)
    ensures IsBlank(ToLower(s)) <==> IsBlank(s)
  {
    var l := ToLower(s);
    BlankIffAllWhitespace(s);
    BlankIffAllWhitespace(l);
    forall i | 0 <= i < |s|
      ensures IsJsWhitespace(l[i]) <==> IsJsWhitespace(s[i])
    {
      assert l[i] == LowerChar(s[i]);
      LowerCharKeepsWhitespace(s[i]);
    }
  }

  /** The capitals `toLowerCase` changes are letters, and so are their lower-case forms. */
  lemma LowerCharKeepsWhitespace(c: char)
    ensures IsJsWhitespace(LowerChar(c)) <==> IsJsWhitespace(c)
  {
    if 'A' <= c <= 'Z' || ('\U{00C0}' <= c <= '\U{00DE}' && c != '\U{00D7}') {
      assert 'a' <= LowerChar(c) <= 'z' || '\U{00E0}' <= LowerChar(c) <= '\U{00FE}';
    }
  }

  /** `s.startsWith(p)`. */
  predicate StartsWith(s: string, p: string) {
    |p| <= |s| && s[..|p|] == p
  }

  predicate OccursAt(s: string, t: string, i: int) {
    0 <= i && i + |t| <= |s| && s[i..i + |t|] == t
  }

  /** `s.includes(t)`: tried at every start position from the left. */
  predicate Includes(s: string, t: string)
    decreases |s|
  {
    StartsWith(s, t) || (s != [] && Includes(s[1..], t))
  }

  /** `includes` holds exactly when the term occurs at some position; the empty term occurs everywhere. */
  lemma {:induction false} IncludesIffOccurs(s: string, t: string)
    ensures Includes(s, t) <==> exists i :: OccursAt(s, t, i)
    ensures Includes(s, "")
    decreases |s|
  {
    assert OccursAt(s, "", 0);
    if StartsWith(s, t) {
      assert OccursAt(s, t, 0);
    } else if s != [] {
      IncludesIffOccurs(s[1..], t);
      if Includes(s[1..], t) {
        var i :| OccursAt(s[1..], t, i);
        assert s[1..][i..i + |t|] == s[i + 1..i + 1 + |t|];
        assert OccursAt(s, t, i + 1);
      }
      if exists i :: OccursAt(s, t, i) {
        var i :| OccursAt(s, t, i);
        assert i != 0;
        assert s[1..][i - 1..i - 1 + |t|] == s[i..i + |t|];
        assert OccursAt(s[1..], t, i - 1);
      }
    }
  }

  /** `s.toLowerCase().includes(term.toLowerCase())`. */
  predicate ContainsIgnoringCase(s: string, term: string) {
    Includes(ToLower(s), ToLower(term))
  }

  /**
   * The search ignores the case of the term: a lower-cased term finds the
   * same texts as the original, and the empty term finds every text.
   */
  lemma ContainsIgnoringCaseOfLowered(s: string, term: string)
    ensures ContainsIgnoringCase(s, ToLower(term)) <==> ContainsIgnoringCase(s, term)
    ensures ContainsIgnoringCase(s, "")
  {
    ToLowerIdempotent(term);
    IncludesIffOccurs(ToLower(s), "");
    assert ToLower("") == "";
  }

  /** The term is found when some stretch of the text lower-cases to the lower-cased term. */
  lemma ContainsIgnoringCaseIffOccurs(s: string, term: string)
    ensures ContainsIgnoringCase(s, term) <==> exists i :: OccursAt(ToLower(s), ToLower(term), i)
  {
    IncludesIffOccurs(ToLower(s), ToLower(term));
  }

  /** `s.split('/').pop()`: the text after the last '/', or all of it when there is none. */
  function LastSegment(s: string): (r: string)
    ensures |r| <= |s| && r == s[|s| - |r|..]
    ensures '/' !in r
    ensures |r| < |s| ==> s[|s| - |r| - 1] == '/'
  {
    if s == [] then ""
    else if s[|s| - 1] == '/' then ""
    else LastSegment(s[..|s| - 1]) + [s[|s| - 1]]
  }

  /** Joining a directory and a slash-free name with '/' and taking the last segment gives the name back. */
  lemma {:induction false} LastSegmentOfJoin(dir: string, name: string)
    requires '/' !in name
    ensures LastSegment(dir + "/" + name) == name
    decreases |name|
  {
    if name == [] {
      assert (dir + "/" + name)[|dir + "/" + name| - 1] == '/';
    } else {
      var init := name[..|name| - 1];
      assert dir + "/" + name == (dir + "/" + init) + [name[|name| - 1]];
      assert '/' !in init by {
        forall c | c in init ensures c in name { }
      }
      LastSegmentOfJoin(dir, init);
      assert init + [name[|name| - 1]] == name;
    }
  }

  /** `s.slice(0, n)`: the first n characters, or all of a shorter text. */
  function Prefix(s: string, n: nat): (r: string)
    ensures |r| == if |s| < n then |s| else n
    ensures r == s[..|r|]
  {
    if |s| <= n then s else s[..n]
  }

  predicate IsDigit(c: char) {
    '0' <= c <= '9'
  }

  predicate AllDigits(s: string) {
    forall i :: 0 <= i < |s| ==> IsDigit(s[i])
  }

  function DigitChar(d: nat): (c: char)
    requires d < 10
    ensures IsDigit(c)
  {
    ('0' as int + d) as char
  }

  /** The number a run of decimal digits denotes, read most significant first. */
  function DigitsValue(s: string): nat
    requires AllDigits(s)
  {
    if s == [] then 0
    else DigitsValue(s[..|s| - 1]) * 10 + (s[|s| - 1] as int - '0' as int)
  }

  /** The decimal text of a natural number, as template-literal interpolation prints it. */
  function NatToString(n: nat): (r: string)
    ensures |r| >= 1 && AllDigits(r)
    ensures DigitsValue(r) == n
    ensures n >= 10 ==> r[0] != '0'
    decreases n
  {
    if n < 10 then [DigitChar(n)]
    else
      var init := NatToString(n / 10);
      var r := init + [DigitChar(n % 10)];
      assert r[..|r| - 1] == init;
      r
  }

  /** The length of the run of digits a text starts with. */
  function LeadingDigits(s: string): (k: nat)
    ensures k <= |s| && AllDigits(s[..k])
    ensures k == |s| || !IsDigit(s[k])
  {
    if s != [] && IsDigit(s[0]) then
      var k := 1 + LeadingDigits(s[1..]);
      assert forall i :: 1 <= i < k ==> s[..k][i] == s[1..][..k - 1][i - 1];
      k
    else 0
  }

  /** A text with one leading sign dropped, if it has one. */
  function Unsigned(t: string): string {
    if t != [] && (t[0] == '-' || t[0] == '+') then t[1..] else t
  }

  /** The text `parseInt` reads digits from: trimmed, with one leading sign dropped. */
  function NumberBody(s: string): string {
    Unsigned(TrimStart(s))
  }

  /** `parseInt` once the leading whitespace is gone: an optional sign, then the longest run of digits. */
  function ParseSigned(t: string): (r: Option<int>)
    ensures r.None? <==> Unsigned(t) == [] || !IsDigit(Unsigned(t)[0])
    ensures r.Some? && t[0] != '-' ==> r.value >= 0
  {
    var body := Unsigned(t);
    var k := LeadingDigits(body);
    var v: int := DigitsValue(body[..k]);
    if k == 0 then None
    else if t[0] == '-' then Some(-v)
    else Some(v)
  }

  /**
   * `parseInt(s)` for decimal text: leading whitespace is skipped, one sign is
   * allowed, and the longest run of digits after it is read. `None` is `NaN`.
   */
  function ParseIntPrefix(s: string): (r: Option<int>)
    ensures r.None? <==> NumberBody(s) == [] || !IsDigit(NumberBody(s)[0])
    ensures r.Some? && TrimStart(s)[0] != '-' ==> r.value >= 0
  {
    ParseSigned(TrimStart(s))
  }

  /** A text of digits alone reads as the number it denotes. */
  lemma ParseDigits(s: string)
    requires s != [] && AllDigits(s)
    ensures ParseIntPrefix(s) == Some(DigitsValue(s))
  {
    assert IsDigit(s[0]);
    assert TrimStart(s) == s;
    assert NumberBody(s) == s;
    assert LeadingDigits(s) == |s|;
    assert s[..|s|] == s;
  }

  /** Reading back the decimal text of a number gives the number. */
  lemma NatToStringRoundTrip(n: nat)
    ensures ParseIntPrefix(NatToString(n)) == Some(n)
  {
    ParseDigits(NatToString(n));
  }

  /** The digit run of a text that starts with digits and goes on with a non-digit is exactly those digits. */
  lemma {:induction false} LeadingDigitsOfRun(d: string, rest: string)
    requires AllDigits(d)
    requires rest == [] || !IsDigit(rest[0])
    ensures LeadingDigits(d + rest) == |d|
    decreases |d|
  {
    if d == [] {
      assert d + rest == rest;
    } else {
      assert (d + rest)[1..] == d[1..] + rest;
      LeadingDigitsOfRun(d[1..], rest);
    }
  }

  /** Leading whitespace is skipped up to the first other character. */
  lemma {:induction false} TrimStartSkips(lead: string, s: string)
    requires forall i :: 0 <= i < |lead| ==> IsJsWhitespace(lead[i])
    requires s == [] || !IsJsWhitespace(s[0])
    ensures TrimStart(lead + s) == s
    decreases |lead|
  {
    if lead == [] {
      assert lead + s == s;
    } else {
      assert (lead + s)[1..] == lead[1..] + s;
      TrimStartSkips(lead[1..], s);
    }
  }

  /** `parseInt` skips leading whitespace: only what follows it is read. */
  lemma ParseSkipsWhitespace(lead: string, t: string)
    requires forall i :: 0 <= i < |lead| ==> IsJsWhitespace(lead[i])
    requires t == [] || !IsJsWhitespace(t[0])
    ensures ParseIntPrefix(lead + t) == ParseSigned(t)
  {
    TrimStartSkips(lead, t);
  }

  /** Dropping the sign of a signed text that goes on with a digit leaves that text. */
  lemma UnsignedDropsSign(sign: string, x: string)
    requires sign == "" || sign == "+" || sign == "-"
    requires x != [] && IsDigit(x[0])
    ensures Unsigned(sign + x) == x
    ensures (sign + x)[0] == '-' <==> sign == "-"
  {
    if sign != "" {
      assert (sign + x)[1..] == x;
    } else {
      assert sign + x == x;
    }
  }

  /** A sign, the decimal text of a number and a tail that does not go on with a digit read as that number, signed. */
  lemma ParseSignedNumber(sign: string, n: nat, rest: string)
    requires sign == "" || sign == "+" || sign == "-"
    requires rest == [] || !IsDigit(rest[0])
    ensures ParseSigned(sign + NatToString(n) + rest) == Some(if sign == "-" then -(n as int) else n as int)
  {
    var d := NatToString(n);
    var body := d + rest;
    assert IsDigit(body[0]);
    assert sign + d + rest == sign + body;
    UnsignedDropsSign(sign, body);
    LeadingDigitsOfRun(d, rest);
    assert body[..|d|] == d;
  }

  /**
   * `parseInt` on whitespace, an optional sign, the decimal text of a number
   * and then anything that does not go on with a digit, such as "3.5", " -2"
   * or "12 sessões": the number, negated after a minus sign.
   */
  lemma ParseLeadingNumber(lead: string, sign: string, n: nat, rest: string)
    requires forall i :: 0 <= i < |lead| ==> IsJsWhitespace(lead[i])
    requires sign == "" || sign == "+" || sign == "-"
    requires rest == [] || !IsDigit(rest[0])
    ensures ParseIntPrefix(lead + sign + NatToString(n) + rest) == Some(if sign == "-" then -(n as int) else n as int)
  {
    var d := NatToString(n);
    var t := sign + d + rest;
    assert lead + sign + d + rest == lead + t;
    assert !IsJsWhitespace(t[0]) by {
      if sign == "" {
        assert t[0] == d[0];
      } else {
        assert t[0] == sign[0];
      }
    }
    ParseSkipsWhitespace(lead, t);
    ParseSignedNumber(sign, n, rest);
  }
}
