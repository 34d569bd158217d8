/** The string handling the prefix-command parser relies on: Python's
    `str.split()` with no separator, `" ".join`, `str.lower()`,
    `str.startswith`/`str.endswith`, `str.replace(p, "")` and `int(s)`. */
module Text {

  datatype Option<T> = None | Some(value: T)

  /** The characters Python's `str.isspace()` accepts; `str.split()` with no
      argument separates words at runs of them. */
  predicate IsSpace(c: char) {
    || c == ' '
    || ('\t' <= c <= '\r')
    || ('\U{1C}' <= c <= '\U{1F}')
    || c == '\U{85}' || c == '\U{A0}' || c == '\U{1680}'
    || ('\U{2000}' <= c <= '\U{200A}')
    || c == '\U{2028}' || c == '\U{2029}' || c == '\U{202F}' || c == '\U{205F}' || c == '\U{3000}'
  }

  predicate NoSpace(w: string) {
    forall i :: 0 <= i < |w| ==> !IsSpace(w[i])
  }

  /** A word as `str.split()` produces it: non-empty and without whitespace. */
  predicate IsWord(w: string) {
    w != [] && NoSpace(w)
  }

  predicate AllWords(ws: seq<string>) {
    forall i :: 0 <= i < |ws| ==> IsWord(ws[i])
  }

  /** The length of the run of non-space characters that starts `s`. */
  function WordLength(s: string): (n: nat)
    ensures n <= |s|
    ensures forall i :: 0 <= i < n ==> !IsSpace(s[i])
    ensures n < |s| ==> IsSpace(s[n])
  {
    if s == [] || IsSpace(s[0]) then 0 else 1 + WordLength(s[1..])
  }

  /** `s.split()`: the maximal runs of non-space characters of `s`, in order. */
  function Words(s: string): seq<string>
    decreases |s|
  {
    if s == [] then []
    else if IsSpace(s[0]) then Words(s[1..])
    else
      var n := WordLength(s);
      [s[..n]] + Words(s[n..])
  }

  /** `" ".join(ws)`. */
  function Join(ws: seq<string>): string {
    if ws == [] then ""
    else if |ws| == 1 then ws[0]
    else ws[0] + " " + Join(ws[1..])
  }

  lemma {:induction false} WordsAreWords(s: string)
    ensures AllWords(Words(s))
    decreases |s|
  {
    if s == [] {
    } else if IsSpace(s[0]) {
      WordsAreWords(s[1..]);
    } else {
      var n := WordLength(s);
      WordsAreWords(s[n..]);
      assert Words(s) == [s[..n]] + Words(s[n..]);
    }
  }

  lemma {:induction false} WordLengthOfWord(w: string, t: string)
    requires NoSpace(w)
    requires t == [] || IsSpace(t[0])
    ensures WordLength(w + t) == |w|
  {
    if w != [] {
      assert (w + t)[1..] == w[1..] + t;
      WordLengthOfWord(w[1..], t);
    }
  }

  /** Splitting what `" ".join` produced gives back the words it joined. */
  lemma {:induction false} WordsOfJoin(ws: seq<string>)
    requires AllWords(ws)
    ensures Words(Join(ws)) == ws
  {
    if ws == [] {
    } else if |ws| == 1 {
      var w := ws[0];
      WordLengthOfWord(w, []);
      assert w + [] == w;
      assert w[..|w|] == w && w[|w|..] == [];
    } else {
      var w, rest := ws[0], Join(ws[1..]);
      var s := w + " " + rest;
      assert Join(ws) == s;
      WordLengthOfWord(w, " " + rest);
      assert s == w + (" " + rest);
      assert s[..|w|] == w;
      assert s[|w|..] == " " + rest;
      assert (" " + rest)[1..] == rest;
      WordsOfJoin(ws[1..]);
    }
  }

  /** `" ".join` of at least one word is never empty. */
  lemma JoinOfWordsNonEmpty(ws: seq<string>)
    requires AllWords(ws)
    ensures Join(ws) == "" <==> ws == []
  {
    if ws != [] {
      assert IsWord(ws[0]);
    }
  }

  /** `c.lower()` for the characters whose lower-case form is a single
      character that this model distinguishes: A-Z, and the Kelvin sign,
      which Python lowers to `k`. */
  function LowerChar(c: char): char {
    if 'A' <= c <= 'Z' then (c as int + 32) as char
    else if c == '\U{212A}' then 'k'
    else c
  }

  function Lower(s: string): string {
    seq(|s|, i requires 0 <= i < |s| => LowerChar(s[i]))
  }

  /** Lower-casing leaves a string without capitals alone and is idempotent. */
  lemma LowerOfLower(s: string)
    ensures (forall i :: 0 <= i < |s| ==> 'a' <= s[i] <= 'z') ==> Lower(s) == s
    ensures Lower(Lower(s)) == Lower(s)
  {
  }

  predicate StartsWith(s: string, p: string) {
    |p| <= |s| && s[..|p|] == p
  }

  predicate EndsWith(s: string, p: string) {
    |p| <= |s| && s[|s| - |p|..] == p
  }

  /** `s.replace(p, "")`: the non-overlapping occurrences of `p`, found left to
      right, are removed in one pass. */
  function Erase(s: string, p: string): string
    requires p != []
    decreases |s|
  {
    if s == [] then []
    else if StartsWith(s, p) then Erase(s[|p|..], p)
    else [s[0]] + Erase(s[1..], p)
  }

  /** Erasing only removes characters. */
  lemma {:induction false} EraseKeepsOnlyOriginals(s: string, p: string, c: char)
    requires p != []
    requires c in Erase(s, p)
    ensures c in s
    decreases |s|
  {
    if StartsWith(s, p) {
      EraseKeepsOnlyOriginals(s[|p|..], p, c);
    } else if c != s[0] {
      EraseKeepsOnlyOriginals(s[1..], p, c);
    }
  }

  /** Erasing a one-character pattern leaves none of that character. */
  lemma {:induction false} EraseSingleRemovesAll(s: string, c: char)
    ensures c !in Erase(s, [c])
    decreases |s|
  {
    if s != [] {
      if StartsWith(s, [c]) {
        EraseSingleRemovesAll(s[1..], c);
      } else {
        EraseSingleRemovesAll(s[1..], c);
        assert s[0] != c;
      }
    }
  }

  /** No occurrence of `p` can start inside a prefix that never holds `p`'s
      first character, so that prefix survives erasure unchanged. */
  lemma {:induction false} EraseSkipsPrefix(a: string, b: string, p: string)
    requires p != []
    requires p[0] !in a
    ensures Erase(a + b, p) == a + Erase(b, p)
  {
    if a != [] {
      assert (a + b)[0] == a[0] != p[0];
      assert !StartsWith(a + b, p);
      assert (a + b)[1..] == a[1..] + b;
      assert Erase(a + b, p) == [a[0]] + Erase(a[1..] + b, p);
      EraseSkipsPrefix(a[1..], b, p);
      assert [a[0]] + (a[1..] + Erase(b, p)) == a + Erase(b, p);
    } else {
      assert a + b == b;
    }
  }

  lemma EraseAbsent(s: string, p: string)
    requires p != []
    requires p[0] !in s
    ensures Erase(s, p) == s
  {
    EraseSkipsPrefix(s, [], p);
    assert s + [] == s;
  }

  predicate IsDigit(c: char) {
    '0' <= c <= '9'
  }

  /** What `int()` accepts in base 10 once any surrounding whitespace is
      gone: digits, with single underscores allowed between two digits. */
  predicate IsDigitString(s: string) {
    && |s| > 0
    && IsDigit(s[0])
    && IsDigit(s[|s| - 1])
    && (forall i :: 0 <= i < |s| ==> IsDigit(s[i]) || s[i] == '_')
    && (forall i :: 0 <= i < |s| - 1 ==> s[i] == '_' ==> s[i + 1] != '_')
  }

  /** The number the digits of `s` spell, underscores skipped. */
  function DigitsValue(s: string): nat {
    if s == [] then 0
    else
      var c := s[|s| - 1];
      if IsDigit(c) then DigitsValue(s[..|s| - 1]) * 10 + (c as int - '0' as int)
      else DigitsValue(s[..|s| - 1])
  }

  /** `int(s)` for a string without surrounding whitespace; `None` where
      Python raises `ValueError`. */
  function ParseInt(s: string): Option<int> {
    if |s| > 0 && (s[0] == '+' || s[0] == '-') then
      if IsDigitString(s[1..]) then
        var v: int := DigitsValue(s[1..]);
        Some(if s[0] == '-' then -v else v)
      else None
    else if IsDigitString(s) then Some(DigitsValue(s))
    else None
  }

  function DigitChar(d: nat): char
    requires d < 10
  {
    ('0' as int + d) as char
  }

  /** `str(n)` for a natural number. */
  function Decimal(n: nat): string {
    if n < 10 then [DigitChar(n)] else Decimal(n / 10) + [DigitChar(n % 10)]
  }

  /** `str(i)`. */
  function IntString(i: int): string {
    if i < 0 then "-" + Decimal(-i) else Decimal(i)
  }

  lemma {:induction false} DecimalIsDigits(n: nat)
    ensures |Decimal(n)| > 0
    ensures forall i :: 0 <= i < |Decimal(n)| ==> IsDigit(Decimal(n)[i])
    ensures DigitsValue(Decimal(n)) == n
  {
    if n >= 10 {
      DecimalIsDigits(n / 10);
      var s := Decimal(n);
      assert s[..|s| - 1] == Decimal(n / 10);
    }
  }

  /** `int(str(i)) == i`. */
  lemma ParseIntString(i: int)
    ensures ParseInt(IntString(i)) == Some(i)
  {
    var n: nat := if i < 0 then -i else i;
    var d := Decimal(n);
    DecimalIsDigits(n);
    assert IsDigitString(d);
    assert !(d[0] == '+' || d[0] == '-');
    if i < 0 {
      var s := IntString(i);
      assert s == "-" + d && s[1..] == d;
    }
  }

  /** A string holding a character that is neither a digit, a sign nor an
      underscore is not an integer. */
  lemma NonNumericRejected(s: string, k: nat)
    requires k < |s|
    requires !IsDigit(s[k]) && s[k] !in "+-_"
    ensures ParseInt(s) == None
  {
    if |s| > 0 && (s[0] == '+' || s[0] == '-') {
      assert k > 0 && s[1..][k - 1] == s[k];
    }
  }
}
