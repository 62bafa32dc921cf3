/**
 * The amount keypad of the add-transaction form: the amount string edited key
 * by key, the three-token evaluator behind `=`, and the validation gate before
 * a transaction is submitted. Strings are restricted to what the keypad can
 * type: digits, `.`, the operators `+ - × ÷` and spaces.
 */
module Keypad {
  import opened Wrappers
  import opened Domain
  import opened Groups
  import opened LedgerSpec
  import opened Ledger

  // ---------------------------------------------------------------- components

  /** `components(separatedBy: String(sep))`: never empty; "" gives `[""]`. */
  function SplitOn(s: string, sep: char): (r: seq<string>)
    ensures |r| >= 1
  {
    if s == [] then [[]]
    else
      var p := SplitOn(s[..|s| - 1], sep);
      if s[|s| - 1] == sep then p + [[]] else p[..|p| - 1] + [p[|p| - 1] + [s[|s| - 1]]]
  }

  /** The last component, `components(separatedBy:).last` (never nil). */
  function LastComponent(s: string): string {
    var parts := SplitOn(s, ' ');
    parts[|parts| - 1]
  }

  /** One more character either starts a new, empty component or extends the last one. */
  lemma SplitOnSnoc(s: string, c: char, sep: char)
    ensures var p := SplitOn(s, sep);
      SplitOn(s + [c], sep) == if c == sep then p + [[]] else p[..|p| - 1] + [p[|p| - 1] + [c]]
  {
    assert (s + [c])[..|s|] == s;
  }

  /** Text without the separator extends the last component. */
  lemma {:induction false} SplitOnAppendWithoutSep(s: string, t: string, sep: char)
    requires sep !in t
    ensures var p := SplitOn(s, sep);
      SplitOn(s + t, sep) == p[..|p| - 1] + [p[|p| - 1] + t]
    decreases |t|
  {
    var p := SplitOn(s, sep);
    var n := |p|;
    if t == [] {
      assert s + t == s;
      assert p[n - 1] + t == p[n - 1];
      assert p == p[..n - 1] + [p[n - 1]];
    } else {
      var t', c := t[..|t| - 1], t[|t| - 1];
      assert t == t' + [c];
      assert sep !in t' && c != sep;
      SplitOnAppendWithoutSep(s, t', sep);
      var x := SplitOn(s + t', sep);
      assert x == p[..n - 1] + [p[n - 1] + t'];
      assert SplitOn(s + t, sep) == x[..|x| - 1] + [x[|x| - 1] + [c]] by {
        assert s + t == (s + t') + [c];
        SplitOnSnoc(s + t', c, sep);
      }
      assert x[..|x| - 1] == p[..n - 1];
      assert x[|x| - 1] + [c] == p[n - 1] + t by {
        assert x[|x| - 1] == p[n - 1] + t';
      }
    }
  }

  /** A string without the separator is its own single component. */
  lemma SplitOnWithoutSep(s: string, sep: char)
    requires sep !in s
    ensures SplitOn(s, sep) == [s]
  {
    SplitOnAppendWithoutSep([], s, sep);
    assert [] + s == s;
  }

  // ---------------------------------------------------------------- numbers

  predicate IsDigit(c: char) { '0' <= c <= '9' }

  predicate AllDigits(s: string) {
    forall i :: 0 <= i < |s| ==> IsDigit(s[i])
  }

  function DigitValue(c: char): nat
    requires IsDigit(c)
  {
    c as int - '0' as int
  }

  /** The value of a run of decimal digits, most significant first. */
  function DigitsValue(s: string): nat
    requires AllDigits(s)
  {
    if s == [] then 0 else DigitsValue(s[..|s| - 1]) * 10 + DigitValue(s[|s| - 1])
  }

  function Pow10(n: nat): (p: nat)
    ensures p >= 1
  {
    if n == 0 then 1 else Pow10(n - 1) * 10
  }

  /** Digits and at most one point, with at least one digit: `12`, `12.`, `.5`, `12.50`. */
  function ParseUnsigned(u: string): (r: Option<real>)
    ensures r.Some? ==> r.value >= 0.0
  {
    var parts := SplitOn(u, '.');
    if |parts| == 1 && parts[0] != [] && AllDigits(parts[0]) then
      Some(DigitsValue(parts[0]) as real)
    else if |parts| == 2 && AllDigits(parts[0]) && AllDigits(parts[1]) && parts[0] + parts[1] != [] then
      Some(NumeralValue(parts[0], parts[1]))
    else None
  }

  /** The value of the numeral `ip.fp`. */
  function NumeralValue(ip: string, fp: string): (v: real)
    requires AllDigits(ip) && AllDigits(fp)
    ensures v >= 0.0
  {
    DigitsValue(ip) as real + DigitsValue(fp) as real / Pow10(|fp|) as real
  }

  /**
   * `Double(s)` on the keypad alphabet: an optional sign, then an unsigned
   * decimal numeral. Anything else, such as an operator or an empty string,
   * is nil.
   */
  function ParseDecimal(s: string): Option<real> {
    if s != [] && s[0] == '-' then
      match ParseUnsigned(s[1..])
      case Some(v) => Some(-v)
      case None => None
    else if s != [] && s[0] == '+' then ParseUnsigned(s[1..])
    else ParseUnsigned(s)
  }

  function DigitChar(d: nat): (c: char)
    requires d < 10
    ensures IsDigit(c) && DigitValue(c) == d
  {
    ('0' as int + d) as char
  }

  /** The decimal numeral of `n`, without leading zeros. */
  function NatToString(n: nat): (s: string)
    ensures s != [] && AllDigits(s)
  {
    if n < 10 then [DigitChar(n)] else NatToString(n / 10) + [DigitChar(n % 10)]
  }

  lemma {:induction false} NatToStringValue(n: nat)
    ensures DigitsValue(NatToString(n)) == n
  {
    if n >= 10 {
      var s := NatToString(n);
      NatToStringValue(n / 10);
      assert s[..|s| - 1] == NatToString(n / 10);
    }
  }

  /** The two digits of `m`, with a leading zero below ten. */
  function TwoDigits(m: nat): (s: string)
    requires m < 100
    ensures |s| == 2 && AllDigits(s)
  {
    [DigitChar(m / 10), DigitChar(m % 10)]
  }

  lemma TwoDigitsValue(m: nat)
    requires m < 100
    ensures DigitsValue(TwoDigits(m)) == m
  {
    var s := TwoDigits(m);
    assert s[..1] == [s[0]] && s[..1][..0] == [];
    assert DigitsValue(s[..1]) == m / 10;
    assert DigitsValue(s) == (m / 10) * 10 + m % 10;
  }

  /** `|x| * 100` rounded to the nearest integer, halves away from zero. */
  function Hundredths(x: real): nat {
    var m := if x < 0.0 then -x else x;
    var n := (m * 100.0 + 0.5).Floor;
    if n < 0 then 0 else n
  }

  /**
   * `String(format: "%.2f", x)`: the sign when `x` is negative, the integer
   * part, a point and exactly two decimals.
   */
  function Format2(x: real): string {
    var n := Hundredths(x);
    (if x < 0.0 then "-" else "") + NatToString(n / 100) + "." + TwoDigits(n % 100)
  }

  /** The value `Format2(x)` denotes: `x` rounded to hundredths. */
  function Rounded2(x: real): real {
    (if x < 0.0 then -1.0 else 1.0) * Hundredths(x) as real / 100.0
  }

  /**
   * Two-decimal formatting parses back as `x` rounded to hundredths, which is
   * at most half a hundredth away from `x`; the text has one point and no space.
   */
  lemma Format2RoundTrip(x: real)
    ensures ParseDecimal(Format2(x)) == Some(Rounded2(x))
    ensures -0.005 <= Rounded2(x) - x <= 0.005
    ensures ' ' !in Format2(x) && multiset(Format2(x))['.'] == 1
  {
    Format2Parses(x);
    Rounded2Close(x);
    Format2Shape(x);
  }

  lemma Format2Parses(x: real)
    ensures ParseDecimal(Format2(x)) == Some(Rounded2(x))
  {
    var n := Hundredths(x);
    var u := NatToString(n / 100) + "." + TwoDigits(n % 100);
    HundredthsNumeral(n);
    if x < 0.0 {
      assert Format2(x) == "-" + u;
      assert Format2(x)[1..] == u;
    } else {
      assert Format2(x) == u;
      assert u[0] == NatToString(n / 100)[0];
    }
  }

  lemma Rounded2Close(x: real)
    ensures -0.005 <= Rounded2(x) - x <= 0.005
  {
    var m := if x < 0.0 then -x else x;
    var y := m * 100.0 + 0.5;
    assert y.Floor as real <= y < y.Floor as real + 1.0;
  }

  lemma Format2Shape(x: real)
    ensures ' ' !in Format2(x) && multiset(Format2(x))['.'] == 1
  {
    var n := Hundredths(x);
    var ip, fp := NatToString(n / 100), TwoDigits(n % 100);
    NoSpaceNoDot(ip);
    NoSpaceNoDot(fp);
    assert Format2(x) == (if x < 0.0 then "-" else "") + ip + "." + fp;
  }

  /** The numeral `n / 100` `.` `n % 100` parses to `n / 100` exactly. */
  lemma HundredthsNumeral(n: nat)
    ensures ParseUnsigned(NatToString(n / 100) + "." + TwoDigits(n % 100)) == Some(n as real / 100.0)
  {
    var q, r := n / 100, n % 100;
    var ip, fp := NatToString(q), TwoDigits(r);
    assert ParseUnsigned(ip + "." + fp) == Some(NumeralValue(ip, fp)) by {
      UnsignedNumeral(ip, fp);
    }
    assert NumeralValue(ip, fp) == q as real + r as real / 100.0 by {
      NatToStringValue(q);
      TwoDigitsValue(r);
      assert Pow10(2) == 100;
    }
    assert q as real + r as real / 100.0 == n as real / 100.0 by {
      assert n == 100 * q + r;
    }
  }

  /** `ip.fp` with digit runs on both sides parses to `ip + fp / 10^|fp|`. */
  lemma UnsignedNumeral(ip: string, fp: string)
    requires ip != [] && AllDigits(ip) && AllDigits(fp)
    ensures ParseUnsigned(ip + "." + fp) == Some(NumeralValue(ip, fp))
  {
    NoSpaceNoDot(ip);
    NoSpaceNoDot(fp);
    var s1 := ip + ['.'];
    assert ip + "." + fp == s1 + fp;
    assert SplitOn(s1, '.') == [ip, []] by {
      SplitOnWithoutSep(ip, '.');
      SplitOnSnoc(ip, '.', '.');
    }
    assert SplitOn(s1 + fp, '.') == [ip, fp] by {
      SplitOnAppendWithoutSep(s1, fp, '.');
      var parts := [ip, []];
      assert parts[..1] == [ip] && parts[1] + fp == fp;
    }
    UnsignedOfParts(s1 + fp, ip, fp);
  }

  lemma UnsignedOfParts(u: string, ip: string, fp: string)
    requires SplitOn(u, '.') == [ip, fp]
    requires ip != [] && AllDigits(ip) && AllDigits(fp)
    ensures ParseUnsigned(u) == Some(NumeralValue(ip, fp))
  {
    var parts := SplitOn(u, '.');
    assert parts[0] == ip && parts[1] == fp;
  }

  lemma NoSpaceNoDot(s: string)
    requires AllDigits(s)
    ensures ' ' !in s && '.' !in s && multiset(s)['.'] == 0
  {
  }

  // ---------------------------------------------------------------- the evaluator

  /** The four operator keys. */
  predicate IsOperatorKey(key: string) {
    key == "+" || key == "-" || key == "×" || key == "÷"
  }

  /** One of `+ - × ÷` applied to two numbers; division by zero gives 0. */
  function Apply(op: string, a: real, b: real): Option<real> {
    if op == "+" then Some(a + b)
    else if op == "-" then Some(a - b)
    else if op == "×" then Some(a * b)
    else if op == "÷" then Some(if b != 0.0 then a / b else 0.0)
    else None
  }

  /**
   * `calculateResult()`: a value only when the amount splits into exactly
   * three components, the first and third are numbers and the middle one is
   * an operator.
   */
  function Calculate(amount: string): Option<real> {
    var parts := SplitOn(amount, ' ');
    if |parts| != 3 then None
    else
      match (ParseDecimal(parts[0]), ParseDecimal(parts[2]))
      case (Some(a), Some(b)) => Apply(parts[1], a, b)
      case _ => None
  }

  /** `p op q`, typed with the spaces the operator keys insert, evaluates `op` on the two numbers. */
  lemma CalculateTyped(p: string, op: string, q: string, a: real, b: real)
    requires ' ' !in p && ' ' !in q && IsOperatorKey(op)
    requires ParseDecimal(p) == Some(a) && ParseDecimal(q) == Some(b)
    ensures Calculate(p + " " + op + " " + q) == Apply(op, a, b)
    ensures op == "÷" && b == 0.0 ==> Calculate(p + " " + op + " " + q) == Some(0.0)
    ensures Calculate(p + " " + op + " " + q).Some?
  {
    var left := p + " " + op + " ";
    assert SplitOn(left, ' ') == [p, op, []] by {
      SplitOnWithoutSep(p, ' ');
      OperatorAppend(p, op);
    }
    assert SplitOn(left + q, ' ') == [p, op, q] by {
      SplitOnAppendWithoutSep(left, q, ' ');
      var parts := [p, op, []];
      assert parts[..2] == [p, op] && parts[2] + q == q;
    }
    assert p + " " + op + " " + q == left + q;
  }

  /** A lone number, or anything without exactly three components, is not evaluated. */
  lemma CalculateNeedsThreeComponents(amount: string)
    requires |SplitOn(amount, ' ')| != 3
    ensures Calculate(amount) == None
  {
  }

  // ---------------------------------------------------------------- key presses

  /** What the keypad edits: the amount text and the expression saved by the last operator. */
  datatype Entry = Entry(amount: string, expression: string)

  /** The keys the keypad sends: digits, `.`, `⌫`, `C`, the four operators, `↵` and `=`. */
  predicate IsKeypadKey(key: string) {
    || (|key| == 1 && IsDigit(key[0]))
    || key == "." || key == "⌫" || key == "C" || IsOperatorKey(key) || key == "↵" || key == "="
  }

  /** Whether `s` ends with `suffix`, `hasSuffix`. */
  predicate EndsWith(s: string, suffix: string) {
    |suffix| <= |s| && s[|s| - |suffix|..] == suffix
  }

  /** `handleKeyPress(_:)` on the amount and the expression. */
  function Press(e: Entry, key: string): Entry {
    if key == "↵" then e
    else if key == "=" then
      match Calculate(e.amount)
      case Some(r) => Entry(Format2(r), "")
      case None => e
    else if key == "⌫" then
      if e.amount == [] then e else e.(amount := e.amount[..|e.amount| - 1])
    else if key == "C" then Entry("", "")
    else if IsOperatorKey(key) then
      if e.amount != [] && !EndsWith(e.amount, " " + key + " ") then Entry(e.amount + " " + key + " ", e.amount)
      else e
    else if key == "." then
      if '.' !in LastComponent(e.amount) then e.(amount := e.amount + ".") else e
    else e.(amount := e.amount + key)
  }

  /** `⌫` after a digit undoes it; `⌫` on an empty amount does nothing. */
  lemma BackspaceUndoesDigit(e: Entry, d: string)
    requires |d| == 1 && IsDigit(d[0])
    ensures Press(Press(e, d), "⌫") == e
    ensures e.amount == [] ==> Press(e, "⌫") == e
    ensures e.amount != [] ==> Press(e, "⌫").amount + [e.amount[|e.amount| - 1]] == e.amount
  {
    assert (e.amount + d)[..|e.amount|] == e.amount;
  }

  /**
   * An operator is appended, as `" op "`, exactly when the amount is not empty
   * and does not already end with that same `" op "`; pressing the same
   * operator twice acts as pressing it once.
   */
  lemma OperatorGuard(e: Entry, op: string)
    requires IsOperatorKey(op)
    ensures Press(e, op) != e <==> e.amount != [] && !EndsWith(e.amount, " " + op + " ")
    ensures Press(e, op) != e ==> Press(e, op) == Entry(e.amount + " " + op + " ", e.amount)
    ensures Press(Press(e, op), op) == Press(e, op)
  {
    var s := e.amount + " " + op + " ";
    assert EndsWith(s, " " + op + " ") by {
      assert s[|s| - |" " + op + " "|..] == " " + op + " ";
    }
    if e.amount != [] && !EndsWith(e.amount, " " + op + " ") {
      assert |Press(e, op).amount| > |e.amount|;
    }
  }

  /** Digit keys always append; `C` empties both fields. */
  lemma DigitAppendsClearResets(e: Entry, d: string)
    requires |d| == 1 && IsDigit(d[0])
    ensures Press(e, d).amount == e.amount + d && Press(e, d).expression == e.expression
    ensures Press(e, "C").amount == [] && Press(e, "C").expression == []
    ensures !HasOperator(Press(e, "C").amount) && EnterKeyLabel(Press(e, "C").amount) == "↵"
  {
  }

  /** Whether no component holds two points. */
  predicate AtMostOneDotEach(parts: seq<string>) {
    forall i :: 0 <= i < |parts| ==> multiset(parts[i])['.'] <= 1
  }

  /** Whether no number typed into the amount holds two points. */
  predicate OneDotPerNumber(amount: string) {
    AtMostOneDotEach(SplitOn(amount, ' '))
  }

  /** `.` is appended only when the number being typed has no point yet; a second `.` is ignored. */
  lemma DotGuard(e: Entry)
    ensures Press(e, ".") != e <==> '.' !in LastComponent(e.amount)
    ensures '.' !in LastComponent(e.amount) ==> Press(e, ".") == e.(amount := e.amount + ".")
    ensures Press(Press(e, "."), ".") == Press(e, ".")
  {
    var s := e.amount;
    if '.' !in LastComponent(s) {
      SplitOnSnoc(s, '.', ' ');
      assert s + "." == s + ['.'];
      var p := SplitOn(s, ' ');
      assert LastComponent(s + ".") == p[|p| - 1] + ['.'];
      assert '.' in LastComponent(s + ".");
      assert |Press(e, ".").amount| > |s|;
    }
  }

  /** No key of the keypad can make a typed number hold two points. */
  lemma KeyKeepsOneDotPerNumber(e: Entry, key: string)
    requires IsKeypadKey(key) && OneDotPerNumber(e.amount)
    ensures OneDotPerNumber(Press(e, key).amount)
  {
    var s := e.amount;
    if key == "=" {
      EqualsKeepsOneDot(e);
    } else if key == "⌫" {
      assert Press(e, key).amount == if s == [] then s else s[..|s| - 1];
      if s != [] {
        BackspaceKeepsOneDot(s);
      }
    } else if key == "C" {
      assert Press(e, key).amount == [];
      assert SplitOn("", ' ') == [[]];
    } else if IsOperatorKey(key) {
      OperatorKeepsOneDot(e, key);
    } else if key == "." {
      DotKeepsOneDot(e);
    } else if key != "↵" {
      assert Press(e, key).amount == s + key;
      assert key == [key[0]];
      AppendToLast(s, key[0]);
    }
  }

  lemma EqualsKeepsOneDot(e: Entry)
    requires OneDotPerNumber(e.amount)
    ensures OneDotPerNumber(Press(e, "=").amount)
  {
    match Calculate(e.amount)
    case Some(r) =>
      Format2Shape(r);
      SplitOnWithoutSep(Format2(r), ' ');
    case None =>
  }

  lemma OperatorKeepsOneDot(e: Entry, key: string)
    requires IsOperatorKey(key) && OneDotPerNumber(e.amount)
    ensures OneDotPerNumber(Press(e, key).amount)
  {
    var s := e.amount;
    if s != [] && !EndsWith(s, " " + key + " ") {
      assert Press(e, key).amount == s + " " + key + " ";
      OperatorAppend(s, key);
    } else {
      assert Press(e, key) == e;
    }
  }

  lemma DotKeepsOneDot(e: Entry)
    requires OneDotPerNumber(e.amount)
    ensures OneDotPerNumber(Press(e, ".").amount)
  {
    var s := e.amount;
    if '.' !in LastComponent(s) {
      assert Press(e, ".").amount == s + ['.'];
      AppendToLast(s, '.');
    }
  }

  lemma BackspaceKeepsOneDot(s: string)
    requires s != [] && OneDotPerNumber(s)
    ensures OneDotPerNumber(s[..|s| - 1])
  {
    var s', c := s[..|s| - 1], s[|s| - 1];
    assert s == s' + [c];
    SplitOnSnoc(s', c, ' ');
    var p, q := SplitOn(s, ' '), SplitOn(s', ' ');
    if c == ' ' {
      assert p == q + [[]];
      FewerDotsEach(p, q);
    } else {
      assert p == q[..|q| - 1] + [q[|q| - 1] + [c]];
      assert multiset(p[|q| - 1]) == multiset(q[|q| - 1]) + multiset{c};
      FewerDotsEach(p, q);
    }
  }

  /**
   * Components that agree with `p` except for a last one with no more points
   * than its counterpart keep at most one point each.
   */
  lemma FewerDotsEach(p: seq<string>, q: seq<string>)
    requires AtMostOneDotEach(p) && 1 <= |q| <= |p|
    requires forall i :: 0 <= i < |q| - 1 ==> q[i] == p[i]
    requires multiset(q[|q| - 1])['.'] <= multiset(p[|q| - 1])['.']
    ensures AtMostOneDotEach(q)
  {
    forall i | 0 <= i < |q|
      ensures multiset(q[i])['.'] <= 1
    {
      if i < |q| - 1 {
        assert q[i] == p[i];
      }
    }
  }

  /** Appending a character other than a space extends the last component only. */
  lemma AppendToLast(s: string, c: char)
    requires c != ' '
    requires OneDotPerNumber(s) && (c != '.' || '.' !in LastComponent(s))
    ensures OneDotPerNumber(s + [c])
  {
    SplitOnSnoc(s, c, ' ');
    var p, q := SplitOn(s, ' '), SplitOn(s + [c], ' ');
    assert q == p[..|p| - 1] + [p[|p| - 1] + [c]];
    assert multiset(q[|q| - 1]) == multiset(p[|p| - 1]) + multiset{c};
    assert multiset(q[|q| - 1])['.'] <= 1 by {
      if c == '.' {
        assert multiset(p[|p| - 1])['.'] == 0;
      }
    }
    forall i | 0 <= i < |q|
      ensures multiset(q[i])['.'] <= 1
    {
      if i < |q| - 1 {
        assert q[i] == p[i];
      }
    }
  }

  /** `" op "` adds the operator and an empty number as two new components. */
  lemma OperatorAppend(s: string, op: string)
    requires IsOperatorKey(op)
    ensures SplitOn(s + " " + op + " ", ' ') == SplitOn(s, ' ') + [op, []]
    ensures OneDotPerNumber(s) ==> OneDotPerNumber(s + " " + op + " ")
  {
    OperatorSplit(s, op);
    assert op == [op[0]] && op[0] != '.';
    assert multiset(op)['.'] == 0;
  }

  lemma OperatorSplit(s: string, op: string)
    requires IsOperatorKey(op)
    ensures SplitOn(s + " " + op + " ", ' ') == SplitOn(s, ' ') + [op, []]
  {
    var o := op[0];
    assert op == [o] && o != ' ';
    var p := SplitOn(s, ' ');
    var s1 := s + [' '];
    var s2 := s1 + [o];
    assert SplitOn(s1, ' ') == p + [[]] by {
      SplitOnSnoc(s, ' ', ' ');
    }
    assert SplitOn(s2, ' ') == p + [[o]] by {
      SplitOnSnoc(s1, o, ' ');
      var p' := p + [[]];
      assert p'[..|p'| - 1] == p && p'[|p'| - 1] + [o] == [o];
    }
    assert SplitOn(s2 + [' '], ' ') == p + [op, []] by {
      SplitOnSnoc(s2, ' ', ' ');
    }
    assert s + " " + op + " " == s2 + [' '];
  }

  // ---------------------------------------------------------------- enter key and saving

  /** `amount.contains { ["÷", "×", "-", "+"].contains($0) }`. */
  predicate HasOperator(amount: string) {
    exists i :: 0 <= i < |amount| && amount[i] in "÷×-+"
  }

  /** The label of the enter key. */
  function EnterKeyLabel(amount: string): (enter: string)
    ensures enter == "=" <==> HasOperator(amount)
    ensures enter == "↵" <==> !HasOperator(amount)
  {
    if HasOperator(amount) then "=" else "↵"
  }

  /**
   * The amount `saveTransaction()` accepts: with a non-empty title, the first
   * component of the amount as a number above zero; nil otherwise.
   */
  function ValidAmount(title: string, amount: string): (r: Option<real>)
    ensures r.Some? <==> title != [] && ParseDecimal(SplitOn(amount, ' ')[0]).Some? && ParseDecimal(SplitOn(amount, ' ')[0]).value > 0.0
    ensures r.Some? ==> r.value > 0.0 && ParseDecimal(SplitOn(amount, ' ')[0]) == Some(r.value)
  {
    if title == [] then None
    else
      match ParseDecimal(SplitOn(amount, ' ')[0])
      case Some(v) => if v > 0.0 then Some(v) else None
      case None => None
  }

  /** An empty note is stored as nil. */
  function NoteOf(note: string): (r: Option<string>)
    ensures r.None? <==> note == []
    ensures r.Some? ==> r.value == note
  {
    if note == [] then None else Some(note)
  }

  /** `CategoryPickerView.categories`: the categories offered for a transaction type. */
  function PickerCategories(kind: TransactionType): (r: seq<Category>)
    ensures Other in r
    ensures Salary in r <==> kind == Income
    ensures Food in r <==> kind == Expense
  {
    match kind
    case Expense => [Food, Transport, Entertainment, Shopping, Other]
    case Income => [Salary, Investment, Other]
  }

  /** The form's state. The view-model it submits to is passed to `SaveTransaction`. */
  class AddTransactionForm {
    var amount: string
    var expression: string
    var category: Category
    var title: string
    var note: string
    var showKeypad: bool
    var isAmountFocused: bool
    var selectedDate: Date
    var showAlert: bool
    const kind: TransactionType

    /** A blank form for `kind`, dated `now`, with food preselected. */
    constructor (kind: TransactionType, now: Date)
      ensures this.kind == kind && amount == [] && expression == [] && category == Food
      ensures title == [] && note == [] && !showKeypad && !isAmountFocused && selectedDate == now && !showAlert
    {
      this.kind := kind;
      amount := "";
      expression := "";
      category := Food;
      title := "";
      note := "";
      showKeypad := false;
      isAmountFocused := false;
      selectedDate := now;
      showAlert := false;
    }

    /** `calculateResult()`: replaces the amount by the formatted result and clears the expression, or does nothing. */
    method CalculateResult()
      modifies this
      ensures Calculate(old(amount)).Some? ==> amount == Format2(Calculate(old(amount)).value) && expression == []
      ensures Calculate(old(amount)).None? ==> amount == old(amount) && expression == old(expression)
      ensures title == old(title) && note == old(note) && category == old(category)
      ensures showKeypad == old(showKeypad) && isAmountFocused == old(isAmountFocused)
      ensures selectedDate == old(selectedDate) && showAlert == old(showAlert)
    {
      var result := Calculate(amount);
      if result.None? {
        return;
      }
      amount := Format2(result.value);
      expression := "";
    }

    /** `handleKeyPress(_:)`: edits the amount as `Press` says; `↵` and `=` also hide the keypad. */
    method HandleKeyPress(key: string)
      modifies this
      ensures Entry(amount, expression) == Press(Entry(old(amount), old(expression)), key)
      ensures key == "↵" || key == "=" ==> !showKeypad && !isAmountFocused
      ensures key != "↵" && key != "=" ==> showKeypad == old(showKeypad) && isAmountFocused == old(isAmountFocused)
      ensures title == old(title) && note == old(note) && category == old(category)
      ensures selectedDate == old(selectedDate) && showAlert == old(showAlert)
    {
      if key == "↵" || key == "=" {
        if key == "=" {
          CalculateResult();
        }
        showKeypad := false;
        isAmountFocused := false;
      } else if key == "⌫" {
        if amount != "" {
          amount := amount[..|amount| - 1];
        }
      } else if key == "C" {
        amount := "";
        expression := "";
      } else if IsOperatorKey(key) {
        if amount != "" && !EndsWith(amount, " " + key + " ") {
          expression := amount;
          amount := amount + " " + key + " ";
        }
      } else if key == "." {
        var components := SplitOn(amount, ' ');
        if '.' !in components[|components| - 1] {
          amount := amount + key;
        }
      } else {
        amount := amount + key;
      }
    }

    /**
     * `saveTransaction()`: with an empty title or an amount whose first
     * component is not a number above zero, raises the alert and submits
     * nothing; otherwise submits one transaction to the view-model, its note
     * nil when empty.
     */
    method SaveTransaction(id: string, vm: TransactionViewModel, selectedGroup: Option<Group>, remoteOk: bool)
      returns (submitted: Option<Transaction>)
      modifies this, vm
      ensures amount == old(amount) && expression == old(expression) && title == old(title) && note == old(note)
      ensures category == old(category) && selectedDate == old(selectedDate)
      ensures showKeypad == old(showKeypad) && isAmountFocused == old(isAmountFocused)
      ensures submitted.None? <==> ValidAmount(title, amount).None?
      ensures submitted.None? ==> showAlert && unchanged(vm)
      ensures submitted.Some? ==> submitted.value == Transaction(id, title, ValidAmount(title, amount).value,
                                                               selectedDate, category, kind, NoteOf(note))
      ensures submitted.Some? ==> showAlert == old(showAlert)
      ensures submitted.Some? && selectedGroup.Some? && remoteOk ==> vm.transactions == old(vm.transactions) + [submitted.value]
      ensures submitted.Some? && (selectedGroup.None? || !remoteOk) ==>
        && vm.transactions == old(vm.transactions) && vm.categoryExpenses == old(vm.categoryExpenses)
        && vm.cachedTotalIncome == old(vm.cachedTotalIncome) && vm.cachedTotalExpenses == old(vm.cachedTotalExpenses)
        && vm.cachedBalance == old(vm.cachedBalance)
      ensures vm.budgets == old(vm.budgets)
      ensures submitted.Some? && selectedGroup.Some? && remoteOk ==>
        && vm.cachedTotalIncome == None && vm.cachedTotalExpenses == None && vm.cachedBalance == None
        && IsBreakdown(vm.categoryExpenses, vm.transactions)
      ensures old(vm.CachesAgree()) ==> vm.CachesAgree()
    {
      var amountValue := ValidAmount(title, amount);
      if amountValue.None? {
        showAlert := true;
        return None;
      }
      var t := Transaction(id, title, amountValue.value, selectedDate, category, kind,
                           if note == "" then None else Some(note));
      vm.AddTransaction(t, selectedGroup, remoteOk);
      return Some(t);
    }
  }
}
