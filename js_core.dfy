/** The JavaScript string operations the analyzer relies on, written out for
    Dafny strings: truthiness defaults (`a || b`), `startsWith`, `trim`,
    `toLowerCase` on tag names, the two URL scheme tests, `split("_")[1]`,
    `/^\d+$/`, `Number(...)` on a key suffix and the decimal text of a
    `Date.now()` timestamp. `null` and `undefined` are both `None`. */
module JsCore {

  datatype Option<+T> = None | Some(value: T)

  datatype Result<+R> = Success(value: R) | Failure(error: string)

  // ---------- truthiness ----------

  /** A string-or-absent value is truthy when present and non-empty. */
  predicate Truthy(o: Option<string>) {
    o.Some? && o.value != ""
  }

  /** `a || b` on two string-or-absent values. */
  function Or(a: Option<string>, b: Option<string>): Option<string> {
    if Truthy(a) then a else b
  }

  /** `a || "default"`. */
  function OrElse(a: Option<string>, default: string): string {
    if Truthy(a) then a.value else default
  }

  /** `a || null`. */
  function OrNull(a: Option<string>): Option<string> {
    if Truthy(a) then a else None
  }

  predicate StartsWith(s: string, prefix: string) {
    |prefix| <= |s| && s[..|prefix|] == prefix
  }

  // ---------- trim ----------

  /** The characters String.prototype.trim strips: WhiteSpace and
      LineTerminator of ECMA-262 section 12.2 and 12.3. */
  predicate IsJsSpace(c: char) {
    c == '\t' || c == '\n' || c == '\U{000B}' || c == '\U{000C}' || c == '\r' || c == ' '
    || c == '\U{00A0}' || c == '\U{1680}' || ('\U{2000}' <= c <= '\U{200A}')
    || c == '\U{2028}' || c == '\U{2029}' || c == '\U{202F}' || c == '\U{205F}'
    || c == '\U{3000}' || c == '\U{FEFF}'
  }

  /** Drops leading whitespace: the result is the suffix of `s` that starts
      at its first non-space character. */
  function TrimStart(s: string): (r: string)
    ensures |r| <= |s| && r == s[|s| - |r|..]
    ensures forall k :: 0 <= k < |s| - |r| ==> IsJsSpace(s[k])
    ensures r == [] || !IsJsSpace(r[0])
    decreases |s|
  {
    if s != [] && IsJsSpace(s[0]) then TrimStart(s[1..]) else s
  }

  /** Drops trailing whitespace: the result is the prefix of `s` that ends
      at its last non-space character. */
  function TrimEnd(s: string): (r: string)
    ensures |r| <= |s| && r == s[..|r|]
    ensures forall k :: |r| <= k < |s| ==> IsJsSpace(s[k])
    ensures r == [] || !IsJsSpace(r[|r| - 1])
    decreases |s|
  {
    if s != [] && IsJsSpace(s[|s| - 1]) then TrimEnd(s[..|s| - 1]) else s
  }

  /** `s.trim()`. */
  function Trim(s: string): string {
    TrimEnd(TrimStart(s))
  }

  /** The trimmed text is the slice of `s` between its leading and its
      trailing whitespace, and has no whitespace at either end. */
  lemma TrimIsMiddleSlice(s: string)
    ensures var i, r := |s| - |TrimStart(s)|, Trim(s);
      i + |r| <= |s| && r == s[i..i + |r|]
      && (forall k :: 0 <= k < i ==> IsJsSpace(s[k]))
      && (forall k :: i + |r| <= k < |s| ==> IsJsSpace(s[k]))
      && (r == [] || (!IsJsSpace(r[0]) && !IsJsSpace(r[|r| - 1])))
  {
    var t := TrimStart(s);
    var r := TrimEnd(t);
    var i := |s| - |t|;
    TrimSlices(s, t, r, i);
    TrimEndKeepsHead(t);
  }

  /** Slicing facts behind `TrimIsMiddleSlice`. */
  lemma TrimSlices(s: string, t: string, r: string, i: int)
    requires 0 <= i <= |s| && t == s[i..] && |r| <= |t| && r == t[..|r|]
    requires forall k :: |r| <= k < |t| ==> IsJsSpace(t[k])
    ensures r == s[i..i + |r|]
    ensures forall k :: i + |r| <= k < |s| ==> IsJsSpace(s[k])
  {
    forall k | i + |r| <= k < |s| ensures IsJsSpace(s[k]) {
      assert s[k] == t[k - i];
    }
  }

  /** A non-empty `TrimEnd(t)` starts with a non-space when `t` does. */
  lemma TrimEndKeepsHead(t: string)
    requires t == [] || !IsJsSpace(t[0])
    ensures TrimEnd(t) == [] || !IsJsSpace(TrimEnd(t)[0])
  {
    var r := TrimEnd(t);
    if r != [] {
      assert r[0] == t[0];
    }
  }

  /** Trimming twice is trimming once. */
  lemma TrimIdempotent(s: string)
    ensures Trim(Trim(s)) == Trim(s)
  {
    TrimIsMiddleSlice(s);
    var r := Trim(s);
    assert TrimStart(r) == r;
  }

  // ---------- case ----------

  function LowerChar(c: char): char {
    if 'A' <= c <= 'Z' then (c as int + 32) as char else c
  }

  /** `s.toLowerCase()` restricted to ASCII letters (tag names are ASCII). */
  function ToLowerAscii(s: string): (r: string)
    ensures |r| == |s|
    ensures forall k :: 0 <= k < |s| ==> r[k] == LowerChar(s[k])
    ensures forall k :: 0 <= k < |r| ==> !('A' <= r[k] <= 'Z')
    ensures forall k :: 0 <= k < |s| && !('A' <= s[k] <= 'Z') ==> r[k] == s[k]
  {
    seq(|s|, k requires 0 <= k < |s| => LowerChar(s[k]))
  }

  /** Lower-casing a lower-cased text changes nothing. */
  lemma ToLowerAsciiIdempotent(s: string)
    ensures ToLowerAscii(ToLowerAscii(s)) == ToLowerAscii(s)
  {
  }

  // ---------- URL scheme tests ----------

  /** Length of a leading `http` or `https` (ASCII case-insensitive), 0 if none. */
  function HttpSchemeLength(url: string): nat {
    if |url| >= 4 && LowerChar(url[0]) == 'h' && LowerChar(url[1]) == 't'
       && LowerChar(url[2]) == 't' && LowerChar(url[3]) == 'p'
    then
      if |url| >= 5 && LowerChar(url[4]) == 's' then 5 else 4
    else 0
  }

  /** `/^https?:\/\//i.test(url)`: the one-shot scan's allow-list. */
  function IsInjectableUrl(url: string): bool {
    var n := HttpSchemeLength(url);
    n > 0 && |url| >= n + 3 && url[n..n + 3] == "://"
  }

  /** `/^https?:/i.test(url)`: the looser test the runtime scan applies to tabs. */
  function IsHttpSchemeUrl(url: string): bool {
    var n := HttpSchemeLength(url);
    n > 0 && |url| > n && url[n] == ':'
  }

  /** A prefix test is a test of its first characters. */
  lemma StartsWithAt(s: string, p: string)
    ensures StartsWith(s, p) <==> |p| <= |s| && forall k :: 0 <= k < |p| ==> s[k] == p[k]
  {
    if |p| <= |s| && forall k :: 0 <= k < |p| ==> s[k] == p[k] {
      assert s[..|p|] == p;
    }
  }

  /** The allow-list holds exactly for urls that, lower-cased, begin with
      `http://` or `https://`. */
  lemma InjectableUrlIff(url: string)
    ensures IsInjectableUrl(url) <==>
      StartsWith(ToLowerAscii(url), "http://") || StartsWith(ToLowerAscii(url), "https://")
  {
    var l := ToLowerAscii(url);
    StartsWithAt(l, "http://");
    StartsWithAt(l, "https://");
    var n := HttpSchemeLength(url);
    if n > 0 && |url| >= n + 3 {
      var w := url[n..n + 3];
      assert w[0] == url[n] && w[1] == url[n + 1] && w[2] == url[n + 2];
      assert w == "://" <==> w[0] == ':' && w[1] == '/' && w[2] == '/';
    }
  }

  /** The runtime filter holds exactly for urls that, lower-cased, begin with
      `http:` or `https:`. */
  lemma HttpSchemeUrlIff(url: string)
    ensures IsHttpSchemeUrl(url) <==>
      StartsWith(ToLowerAscii(url), "http:") || StartsWith(ToLowerAscii(url), "https:")
  {
    var l := ToLowerAscii(url);
    StartsWithAt(l, "http:");
    StartsWithAt(l, "https:");
  }

  /** Every url the one-shot allow-list admits passes the runtime filter,
      but not the other way round: "http:x" passes only the runtime one. */
  lemma InjectableIsHttpScheme(url: string)
    ensures IsInjectableUrl(url) ==> IsHttpSchemeUrl(url)
    ensures IsHttpSchemeUrl("http:x") && !IsInjectableUrl("http:x")
  {
    HttpSchemeUrlIff("http:x");
    InjectableUrlIff("http:x");
    StartsWithAt(ToLowerAscii("http:x"), "http:");
  }

  // ---------- digits and numbers ----------

  predicate IsDigit(c: char) {
    '0' <= c <= '9'
  }

  /** `/^\d+$/.test(s)`. */
  predicate IsDigits(s: string) {
    |s| > 0 && forall k :: 0 <= k < |s| ==> IsDigit(s[k])
  }

  /** The decimal value of a string of digits (leading zeros allowed). */
  function DigitsValue(s: string): nat
    requires forall k :: 0 <= k < |s| ==> IsDigit(s[k])
    decreases |s|
  {
    if s == [] then 0
    else
      assert IsDigit(s[|s| - 1]);
      10 * DigitsValue(s[..|s| - 1]) + (s[|s| - 1] as int - '0' as int)
  }

  /** `Number(s)` on a string of decimal digits, or on the empty string (0).
      Every other string is None here, although JavaScript's `Number` also
      reads a sign, an exponent, a hexadecimal prefix and surrounding
      whitespace (`Number("-5")` is -5); where the model uses this, a key
      suffix of those forms is ranked as NaN. */
  function NumberOf(s: string): Option<nat> {
    if forall k :: 0 <= k < |s| ==> IsDigit(s[k]) then Some(DigitsValue(s)) else None
  }

  function DigitChar(d: nat): char
    requires d < 10
  {
    ('0' as int + d) as char
  }

  /** The decimal text of `n`, as a template literal `${n}` renders it. */
  function Decimal(n: nat): (r: string)
    ensures IsDigits(r)
    decreases n
  {
    if n < 10 then [DigitChar(n)] else Decimal(n / 10) + [DigitChar(n % 10)]
  }

  /** Rendering a timestamp and reading it back with Number gives the
      timestamp again, and the text holds no `_`. */
  lemma {:induction false} DecimalRoundTrip(n: nat)
    ensures DigitsValue(Decimal(n)) == n
    ensures NumberOf(Decimal(n)) == Some(n)
    ensures '_' !in Decimal(n)
    decreases n
  {
    var r := Decimal(n);
    if n >= 10 {
      DecimalRoundTrip(n / 10);
      assert r[..|r| - 1] == Decimal(n / 10);
    }
  }

  // ---------- split("_") ----------

  /** The text of `s` before its first `_` (all of `s` when it has none). */
  function UpToUnderscore(s: string): (r: string)
    ensures |r| <= |s| && r == s[..|r|]
    ensures '_' !in r
    ensures |r| < |s| ==> s[|r|] == '_'
  {
    if s == [] || s[0] == '_' then [] else [s[0]] + UpToUnderscore(s[1..])
  }

  /** `s.split("_")[1]`: the text between the first and the second `_`
      (or the end); None (undefined) when `s` has no `_`. */
  function SplitSecond(s: string): (r: Option<string>)
    ensures r.None? <==> '_' !in s
  {
    var head := UpToUnderscore(s);
    if |head| == |s| then None else Some(UpToUnderscore(s[|head| + 1..]))
  }

  /** The second segment of `prefix + d`, for a prefix whose only `_` is its
      last character, is the part of `d` before its first `_`. */
  lemma SplitSecondAfterPrefix(prefix: string, d: string)
    requires |prefix| > 0 && prefix[|prefix| - 1] == '_'
    requires '_' !in prefix[..|prefix| - 1]
    ensures SplitSecond(prefix + d) == Some(UpToUnderscore(d))
  {
    var s := prefix + d;
    var head := UpToUnderscore(s);
    var p := |prefix| - 1;
    assert forall k :: 0 <= k < p ==> s[k] == prefix[..p][k];
    assert s[p] == '_';
    assert |head| == p;
    assert s[p + 1..] == d;
  }
}
