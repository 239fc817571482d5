/** Strings as the three programs see them: blank-separated words, decimal numbers,
    and the fixed-size character buffers of the C side. */
module Text {

  /** Which library splits the text: strtok_r with " \t\r\n", or JavaScript's \s. */
  datatype Dialect = CLib | JavaScript

  predicate IsSpace(d: Dialect, c: char)
  {
    || c == ' ' || c == '\t' || c == '\r' || c == '\n'
    || (d == JavaScript &&
        (|| c == '\U{000B}' || c == '\U{000C}' || c == '\U{00A0}' || c == '\U{1680}'
         || '\U{2000}' <= c <= '\U{200A}' || c == '\U{2028}' || c == '\U{2029}'
         || c == '\U{202F}' || c == '\U{205F}' || c == '\U{3000}' || c == '\U{FEFF}'))
  }

  /** A non-empty piece of text that the splitter keeps whole. */
  predicate IsToken(d: Dialect, s: string)
  {
    s != "" && forall i | 0 <= i < |s| :: !IsSpace(d, s[i])
  }

  /** A token in both dialects that a C string can hold. */
  predicate IsWord(s: string)
  {
    IsToken(JavaScript, s) && '\0' !in s
  }

  /** Printable ASCII, the blank excluded. */
  predicate IsPlain(s: string)
  {
    forall i | 0 <= i < |s| :: '!' <= s[i] <= '~'
  }

  lemma PlainIsWord(s: string)
    requires IsPlain(s) && s != ""
    ensures IsWord(s)
  {
  }

  // ---------- splitting and joining ----------

  function WordEnd(d: Dialect, s: string): (n: nat)
    ensures n <= |s|
    ensures forall i | 0 <= i < n :: !IsSpace(d, s[i])
    ensures n < |s| ==> IsSpace(d, s[n])
  {
    if s == "" || IsSpace(d, s[0]) then 0 else 1 + WordEnd(d, s[1..])
  }

  /** All the tokens of `s`, in order: what repeated strtok_r calls return, and what
      trim().split(/\s+/) returns for text that is not blank. */
  function Tokens(d: Dialect, s: string): (ts: seq<string>)
    ensures forall t | t in ts :: IsToken(d, t)
    decreases |s|
  {
    if s == "" then []
    else if IsSpace(d, s[0]) then Tokens(d, s[1..])
    else
      var n := WordEnd(d, s);
      [s[..n]] + Tokens(d, s[n..])
  }

  function Join(ws: seq<string>): string
  {
    if ws == [] then "" else if |ws| == 1 then ws[0] else ws[0] + " " + Join(ws[1..])
  }

  /** The shape of every line on the wire: words, single blanks, one newline. */
  function Line(ws: seq<string>): string
  {
    Join(ws) + "\n"
  }

  lemma {:induction false} TokensOfWord(d: Dialect, w: string, rest: string)
    requires IsToken(d, w) && (rest == "" || IsSpace(d, rest[0]))
    ensures Tokens(d, w + rest) == [w] + Tokens(d, rest)
  {
    var s := w + rest;
    var n := WordEnd(d, s);
    assert forall i | 0 <= i < |w| :: s[i] == w[i];
    assert n <= |w| by {
      if rest != "" { assert s[|w|] == rest[0]; }
    }
    assert n == |w|;
    assert s[..n] == w && s[n..] == rest;
    assert !IsSpace(d, s[0]) by { assert s[0] == w[0]; }
  }

  /** Splitting undoes printing, in either dialect. */
  lemma {:induction false} TokensOfLine(d: Dialect, ws: seq<string>)
    requires forall w | w in ws :: IsToken(d, w)
    ensures Tokens(d, Line(ws)) == ws
  {
    if ws == [] {
      assert Line(ws) == "\n";
      assert "\n"[1..] == "";
    } else if |ws| == 1 {
      TokensOfWord(d, ws[0], "\n");
      assert "\n"[1..] == "";
      assert Tokens(d, "\n") == [];
    } else {
      var rest := " " + Line(ws[1..]);
      assert Line(ws) == ws[0] + rest;
      TokensOfWord(d, ws[0], rest);
      assert rest[1..] == Line(ws[1..]);
      TokensOfLine(d, ws[1..]);
    }
  }

  lemma {:induction false} SplitsBefore(d: Dialect, a: string, b: string)
    requires b != "" && IsSpace(d, b[0])
    ensures Tokens(d, a + b) == Tokens(d, a) + Tokens(d, b)
    decreases |a|
  {
    if a == "" {
      assert a + b == b;
    } else if IsSpace(d, a[0]) {
      assert (a + b)[1..] == a[1..] + b;
      SplitsBefore(d, a[1..], b);
    } else {
      var n := WordEnd(d, a);
      WordEndIs(d, a);
      SplitsBefore(d, a[n..], b);
      WordThen(d, a, n, b);
    }
  }

  lemma Regroup(a: string, n: nat, b: string)
    requires n <= |a| && b != ""
    ensures a == a[..n] + a[n..] && a + b == a[..n] + (a[n..] + b)
    ensures (a[n..] + b)[0] == if n < |a| then a[n] else b[0]
  {
  }

  lemma WordThen(d: Dialect, a: string, n: nat, b: string)
    requires 0 < n <= |a| && IsToken(d, a[..n]) && (n < |a| ==> IsSpace(d, a[n]))
    requires b != "" && IsSpace(d, b[0]) && Tokens(d, a[n..] + b) == Tokens(d, a[n..]) + Tokens(d, b)
    ensures Tokens(d, a + b) == Tokens(d, a) + Tokens(d, b)
  {
    Regroup(a, n, b);
    FirstWord(d, a, a[..n], a[n..]);
    FirstWord(d, a + b, a[..n], a[n..] + b);
    Glue(a[..n], Tokens(d, a[n..]), Tokens(d, b));
  }

  lemma FirstWord(d: Dialect, s: string, w: string, rest: string)
    requires s == w + rest && IsToken(d, w) && (rest == "" || IsSpace(d, rest[0]))
    ensures Tokens(d, s) == [w] + Tokens(d, rest)
  {
    TokensOfWord(d, w, rest);
  }

  lemma Glue<T>(x: T, a: seq<T>, b: seq<T>)
    ensures [x] + (a + b) == ([x] + a) + b
  {
  }

  /** Splitting in general: a blank, wherever it stands, separates what is before it from
      what is after it, and adds nothing. */
  lemma {:induction false} SplitsAtBlank(d: Dialect, a: string, blank: char, b: string)
    requires blank == ' ' || blank == '\t' || blank == '\r' || blank == '\n'
    ensures Tokens(d, a + ([blank] + b)) == Tokens(d, a) + Tokens(d, b)
  {
    SplitsBefore(d, a, [blank] + b);
    assert ([blank] + b)[1..] == b;
  }

  lemma WordEndIs(d: Dialect, s: string)
    requires s != "" && !IsSpace(d, s[0])
    ensures WordEnd(d, s) > 0 && IsToken(d, s[..WordEnd(d, s)])
  {
  }

  /** A text without blanks is one token, or none if it is empty. */
  lemma OneToken(d: Dialect, s: string)
    requires forall i | 0 <= i < |s| :: !IsSpace(d, s[i])
    ensures Tokens(d, s) == if s == "" then [] else [s]
  {
    if s != "" {
      TokensOfWord(d, s, "");
      assert s + "" == s;
    }
  }

  /** The same without the newline at the end. */
  lemma TokensOfJoin(d: Dialect, ws: seq<string>)
    requires forall w | w in ws :: IsToken(d, w)
    ensures Tokens(d, Join(ws)) == ws
  {
    TokensOfLine(d, ws);
    SplitsAtBlank(d, Join(ws), '\n', "");
    assert Join(ws) + (['\n'] + "") == Line(ws);
  }

  /** Two words of a text fit side by side into as much room as the text takes. */
  lemma {:induction false} FirstTwoFit(d: Dialect, s: string)
    ensures var ts := Tokens(d, s);
            (|ts| >= 1 ==> |ts[0]| <= |s|) && (|ts| >= 2 ==> |ts[0]| + 1 + |ts[1]| <= |s|)
    decreases |s|
  {
    if s != "" {
      if IsSpace(d, s[0]) {
        FirstTwoFit(d, s[1..]);
      } else {
        var n := WordEnd(d, s);
        if n < |s| {
          assert IsSpace(d, s[n..][0]) && s[n..][1..] == s[n + 1..];
          FirstTwoFit(d, s[n + 1..]);
        }
      }
    }
  }

  lemma WordIsCToken(w: string)
    requires IsWord(w)
    ensures IsToken(CLib, w)
  {
    forall i | 0 <= i < |w| ensures !IsSpace(CLib, w[i]) { assert !IsSpace(JavaScript, w[i]); }
  }

  lemma CTokensOfLine(ws: seq<string>)
    requires forall w | w in ws :: IsWord(w)
    ensures Tokens(CLib, Line(ws)) == ws
  {
    forall w | w in ws ensures IsToken(CLib, w) { WordIsCToken(w); }
    TokensOfLine(CLib, ws);
  }

  // ---------- fixed-size buffers ----------

  /** What snprintf("%s") leaves in a buffer with room for `n` characters and a NUL. */
  function Trunc(s: string, n: nat): (r: string)
    ensures |r| <= n && r <= s
    ensures |s| <= n ==> r == s
  {
    if |s| <= n then s else s[..n]
  }

  function CutNul(s: string): (r: string)
    ensures r <= s && '\0' !in r && (|r| < |s| ==> s[|r|] == '\0')
    ensures '\0' !in s ==> r == s
  {
    if s == "" || s[0] == '\0' then "" else [s[0]] + CutNul(s[1..])
  }

  /** The C string left by recvfrom into a buffer of 256 bytes. */
  function Received(datagram: string): (r: string)
    ensures |r| <= 255 && r <= datagram
    ensures |datagram| <= 255 && '\0' !in datagram ==> r == datagram
  {
    CutNul(Trunc(datagram, 255))
  }

  /** recvfrom keeps the first 255 characters of a longer datagram. */
  lemma ReceivedCuts(datagram: string)
    requires '\0' !in datagram
    ensures Received(datagram) == if |datagram| <= 255 then datagram else datagram[..255]
  {
  }

  lemma {:induction false} JoinHasNoNul(ws: seq<string>)
    requires forall w | w in ws :: IsWord(w)
    ensures '\0' !in Join(ws)
  {
    if ws != [] { assert IsWord(ws[0]); }
    if |ws| > 1 { JoinHasNoNul(ws[1..]); }
  }

  lemma ReceivedLine(ws: seq<string>)
    requires forall w | w in ws :: IsWord(w)
    requires |Line(ws)| <= 255
    ensures Received(Line(ws)) == Line(ws)
  {
    JoinHasNoNul(ws);
  }

  // ---------- decimal numbers ----------

  predicate IsDigit(c: char) { '0' <= c <= '9' }

  function Digits(n: nat): (s: string)
    ensures s != "" && forall i | 0 <= i < |s| :: IsDigit(s[i])
  {
    var last := [('0' as int + n % 10) as char];
    if n < 10 then last else Digits(n / 10) + last
  }

  /** printf("%d"), and JavaScript's rendering of an integer. */
  function Dec(n: int): string
  {
    if n < 0 then "-" + Digits(-n) else Digits(n)
  }

  function Value(s: string, acc: nat): nat
  {
    if s == "" || !IsDigit(s[0]) then acc
    else Value(s[1..], 10 * acc + (s[0] as int - '0' as int))
  }

  function SkipBlanks(s: string): string
  {
    if s != "" && (IsSpace(CLib, s[0]) || s[0] == '\U{000B}' || s[0] == '\U{000C}') then SkipBlanks(s[1..]) else s
  }

  /** atoi on unbounded integers. */
  function Atoi(s: string): int
  {
    var t := SkipBlanks(s);
    if t != "" && t[0] == '-' then 0 - Value(t[1..], 0)
    else if t != "" && t[0] == '+' then Value(t[1..], 0)
    else Value(t, 0)
  }

  datatype Number = NaN | Num(value: int)

  /** parseInt(s, 10) on a token, on unbounded integers. */
  function ParseInt(s: string): Number
  {
    var t := if s != "" && (s[0] == '-' || s[0] == '+') then s[1..] else s;
    if t == "" || !IsDigit(t[0]) then NaN
    else if s[0] == '-' then Num(0 - Value(t, 0)) else Num(Value(t, 0))
  }

  lemma {:induction false} ValueOfDigits(n: nat, rest: string)
    ensures Value(Digits(n) + rest, 0) == Value(rest, n)
  {
    var last := [('0' as int + n % 10) as char];
    assert last[0] as int - '0' as int == n % 10;
    assert (last + rest)[1..] == rest;
    if n >= 10 {
      ValueOfDigits(n / 10, last + rest);
      assert Digits(n) + rest == Digits(n / 10) + (last + rest);
    }
  }

  lemma DecIsWord(n: int)
    ensures IsWord(Dec(n))
  {
    var s := Dec(n);
    forall i | 0 <= i < |s| ensures s[i] == '-' || IsDigit(s[i]) {
      if n < 0 && i > 0 { assert s[i] == Digits(-n)[i - 1]; }
    }
  }

  /** Reading a printed number gives it back, for every integer and both readers. */
  lemma NumberRoundTrip(n: int)
    ensures Atoi(Dec(n)) == n && ParseInt(Dec(n)) == Num(n)
  {
    var k := if n < 0 then -n else n;
    ValueOfDigits(k, "");
    assert Digits(k) + "" == Digits(k);
    assert IsDigit(Digits(k)[0]);
    if n < 0 { assert Dec(n)[1..] == Digits(k); }
  }

  function Power10(k: nat): (p: nat)
    ensures p > 0
  {
    if k == 0 then 1 else 10 * Power10(k - 1)
  }

  /** The numeral is decimal: the k-th character from the right is the digit of that power
      of ten, and there are no leading zeros. */
  lemma {:induction false} DecimalPlaces(n: nat, k: nat)
    requires k < |Digits(n)|
    ensures Digits(n)[|Digits(n)| - 1 - k] as int - '0' as int == n / Power10(k) % 10
    ensures n > 0 ==> Digits(n)[0] != '0'
    decreases n
  {
    if n >= 10 {
      var front := Digits(n / 10);
      assert Digits(n) == front + [('0' as int + n % 10) as char];
      if k > 0 {
        DecimalPlaces(n / 10, k - 1);
        DivideTwice(n, Power10(k - 1));
        assert Digits(n)[|Digits(n)| - 1 - k] == front[|front| - 1 - (k - 1)];
      }
      DecimalPlaces(n / 10, 0);
    }
  }

  lemma DivideTwice(n: nat, p: nat)
    requires p > 0
    ensures n / 10 / p == n / (10 * p)
  {
    var q, r := n / 10, n % 10;
    var a, b := q / p, q % p;
    assert n == 10 * p * a + (10 * b + r) by { assert q == p * a + b; }
    assert 0 <= 10 * b + r < 10 * p;
    QuotientIs(n, 10 * p, a, 10 * b + r);
  }

  lemma ProductIsFar(m: nat, d: int)
    ensures d != 0 ==> m * d >= m || m * d <= 0 - m
  {
    if d > 0 { assert m * d >= m; } else if d < 0 { assert m * d <= 0 - m; }
  }

  lemma QuotientIs(n: nat, m: nat, q: nat, r: nat)
    requires m > 0 && n == m * q + r && r < m
    ensures n / m == q
  {
    var d := n / m - q;
    assert n == m * (n / m) + n % m;
    assert m * d == r - n % m by { assert m * d == m * (n / m) - m * q; }
    ProductIsFar(m, d);
  }

  lemma {:induction false} ValueStops(s: string, acc: nat, rest: string)
    requires rest == "" || !IsDigit(rest[0])
    requires forall i | 0 <= i < |s| :: IsDigit(s[i])
    ensures Value(s + rest, acc) == Value(s, acc)
    decreases |s|
  {
    if s == "" {
      assert s + rest == rest;
    } else {
      assert (s + rest)[1..] == s[1..] + rest;
      ValueStops(s[1..], 10 * acc + (s[0] as int - '0' as int), rest);
    }
  }

  lemma ReadsFrom(s: string)
    requires s != "" && IsDigit(s[0])
    ensures Atoi(s) == Value(s, 0) && ParseInt(s) == Num(Value(s, 0))
    ensures Atoi("+" + s) == Value(s, 0) && Atoi("-" + s) == 0 - Value(s, 0)
  {
    assert ("+" + s)[1..] == s && ("-" + s)[1..] == s;
  }

  /** A number is read up to the first character that is no digit, by both readers. */
  lemma NumberStops(n: nat, rest: string)
    requires rest == "" || !IsDigit(rest[0])
    ensures var s := Digits(n) + rest;
            Atoi(s) == n && ParseInt(s) == Num(n) && Atoi("+" + s) == n && Atoi("-" + s) == 0 - n
  {
    var s := Digits(n) + rest;
    ValueOfDigits(n, "");
    assert Digits(n) + "" == Digits(n);
    ValueStops(Digits(n), 0, rest);
    assert s[0] == Digits(n)[0];
    ReadsFrom(s);
  }

  /** Where no number begins, atoi reads 0 and parseInt none. */
  lemma NotANumber(s: string)
    requires s == "" || '!' <= s[0] <= '~'
    requires s == "" || (!IsDigit(s[0]) && s[0] != '+' && s[0] != '-')
    ensures ParseInt(s) == NaN && Atoi(s) == 0
  {
  }
}
