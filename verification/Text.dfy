/** Strings as the C library sees them: NUL-terminated, split at blanks, holding decimal numbers. */
module Text {
  import opened Options

  const NUL: char := '\0'

  /** Where the C string that starts at an offset of a buffer ends. */
  function StringEnd(buf: string, at: nat): (e: nat)
    requires at <= |buf|
    ensures at <= e <= |buf| && (e < |buf| ==> buf[e] == NUL)
    decreases |buf| - at
  {
    if at == |buf| || buf[at] == NUL then at else StringEnd(buf, at + 1)
  }

  lemma {:induction false} NoNulInside(buf: string, at: nat)
    requires at <= |buf|
    ensures forall k | at <= k < StringEnd(buf, at) :: buf[k] != NUL
    ensures NUL !in CString(buf, at)
    decreases |buf| - at
  {
    if at < StringEnd(buf, at) {
      NoNulInside(buf, at + 1);
    }
  }

  /** The C string that starts at an offset of a buffer. */
  function CString(buf: string, at: nat): string
    requires at <= |buf|
  {
    buf[at..StringEnd(buf, at)]
  }

  /** The characters before the first NUL. */
  function Upto(s: string): string {
    CString(s, 0)
  }

  /** A stretch without NUL that a NUL, or the end, follows is the C string there. */
  lemma {:induction false} StringEndIs(buf: string, at: nat, e: nat)
    requires at <= e <= |buf| && (e < |buf| ==> buf[e] == NUL)
    requires forall k | at <= k < e :: buf[k] != NUL
    ensures StringEnd(buf, at) == e
    decreases e - at
  {
    if at < e {
      StringEndIs(buf, at + 1, e);
    }
  }

  // ---------- words ----------

  /** What separates words: space and tab for the shells, isspace for the scanf family. */
  datatype Blanks = SpaceTab | CSpace

  predicate Blank(b: Blanks, c: char) {
    || c == ' ' || c == '\t'
    || (b == CSpace && (c == '\n' || c == '\r' || c == '\U{0B}' || c == '\U{0C}'))
  }

  /** The characters in question, by their codes. */
  lemma BlankCodes(c: char)
    ensures Blank(SpaceTab, c) <==> c as int == 32 || c as int == 9
    ensures Blank(CSpace, c) <==> c as int == 32 || 9 <= c as int <= 13
  {
  }

  predicate Solid(b: Blanks, w: string) {
    w != "" && forall c | c in w :: !Blank(b, c)
  }

  /** Where the run of non-blank characters at a position ends. */
  function RunEnd(b: Blanks, s: string, i: nat): (e: nat)
    requires i <= |s|
    ensures i <= e <= |s| && (e < |s| ==> Blank(b, s[e]))
    ensures i < e <==> i < |s| && !Blank(b, s[i])
    decreases |s| - i
  {
    if i == |s| || Blank(b, s[i]) then i else RunEnd(b, s, i + 1)
  }

  lemma {:induction false} RunSolid(b: Blanks, s: string, i: nat, k: nat)
    requires i <= k < |s| && k < RunEnd(b, s, i)
    ensures !Blank(b, s[k])
    decreases k - i
  {
    if i < k {
      RunSolid(b, s, i + 1, k);
    }
  }

  /** The maximal runs of non-blank characters from a position on, in order. */
  function WordsFrom(b: Blanks, s: string, i: nat): (ws: seq<string>)
    requires i <= |s|
    ensures |ws| <= |s| - i
    decreases |s| - i
  {
    if i == |s| then []
    else if Blank(b, s[i]) then WordsFrom(b, s, i + 1)
    else [s[i..RunEnd(b, s, i)]] + WordsFrom(b, s, RunEnd(b, s, i))
  }

  function Words(b: Blanks, s: string): seq<string> {
    WordsFrom(b, s, 0)
  }

  lemma {:induction false} WordsSolid(b: Blanks, s: string, i: nat)
    requires i <= |s|
    ensures forall w | w in WordsFrom(b, s, i) :: Solid(b, w) && forall c | c in w :: c in s
    decreases |s| - i
  {
    if i < |s| && Blank(b, s[i]) {
      WordsSolid(b, s, i + 1);
    } else if i < |s| {
      var e := RunEnd(b, s, i);
      forall c | c in s[i..e]
        ensures !Blank(b, c)
      {
        var k: nat :| k < e - i && s[i..e][k] == c;
        RunSolid(b, s, i, i + k);
      }
      WordsSolid(b, s, e);
    }
  }

  lemma {:induction false} RunEndLeft(b: Blanks, s: string, t: string, i: nat)
    requires i <= |s| && (t != "" ==> Blank(b, t[0]))
    ensures RunEnd(b, s + t, i) == RunEnd(b, s, i)
    decreases |s| - i
  {
    if i < |s| {
      RunEndLeft(b, s, t, i + 1);
    }
  }

  lemma {:induction false} RunEndRight(b: Blanks, s: string, t: string, i: nat)
    requires i <= |t|
    ensures RunEnd(b, s + t, |s| + i) == |s| + RunEnd(b, t, i)
    decreases |t| - i
  {
    if i < |t| {
      RunEndRight(b, s, t, i + 1);
    }
  }

  lemma WordThenRest(b: Blanks, s: string, i: nat)
    requires i < |s| && !Blank(b, s[i])
    ensures WordsFrom(b, s, i) == [s[i..RunEnd(b, s, i)]] + WordsFrom(b, s, RunEnd(b, s, i))
  {
  }

  lemma WordInFront(b: Blanks, s: string, t: string, i: nat)
    requires i < |s| && !Blank(b, s[i]) && (t != "" ==> Blank(b, t[0]))
    requires var e := RunEnd(b, s, i); WordsFrom(b, s + t, e) == WordsFrom(b, s, e) + WordsFrom(b, s + t, |s|)
    ensures WordsFrom(b, s + t, i) == WordsFrom(b, s, i) + WordsFrom(b, s + t, |s|)
  {
    var e := RunEnd(b, s, i);
    RunEndLeft(b, s, t, i);
    WordThenRest(b, s, i);
    WordThenRest(b, s + t, i);
    assert (s + t)[i..e] == s[i..e];
    Associate([s[i..e]], WordsFrom(b, s, e), WordsFrom(b, s + t, |s|));
  }

  lemma {:induction false} WordsLeft(b: Blanks, s: string, t: string, i: nat)
    requires i <= |s| && (t != "" ==> Blank(b, t[0]))
    ensures WordsFrom(b, s + t, i) == WordsFrom(b, s, i) + WordsFrom(b, s + t, |s|)
    decreases |s| - i
  {
    if i < |s| && Blank(b, s[i]) {
      WordsLeft(b, s, t, i + 1);
    } else if i < |s| {
      WordsLeft(b, s, t, RunEnd(b, s, i));
      WordInFront(b, s, t, i);
    }
  }

  lemma Associate(a: seq<string>, b: seq<string>, c: seq<string>)
    ensures a + (b + c) == a + b + c
  {
  }

  lemma {:induction false} WordsRight(b: Blanks, s: string, t: string, i: nat)
    requires i <= |t|
    ensures WordsFrom(b, s + t, |s| + i) == WordsFrom(b, t, i)
    decreases |t| - i
  {
    if i < |t| {
      var e := RunEnd(b, t, i);
      RunEndRight(b, s, t, i);
      if e == i {
        WordsRight(b, s, t, i + 1);
      } else {
        WordsRight(b, s, t, e);
        assert (s + t)[|s| + i..|s| + e] == t[i..e];
      }
    }
  }

  /** A blank at the seam keeps the words of both sides apart. */
  lemma WordsSplit(b: Blanks, s: string, t: string)
    requires t != "" ==> Blank(b, t[0])
    ensures Words(b, s + t) == Words(b, s) + Words(b, t)
  {
    WordsLeft(b, s, t, 0);
    WordsRight(b, s, t, 0);
  }

  lemma SolidRun(b: Blanks, w: string, i: nat)
    requires Solid(b, w) && i <= |w|
    ensures RunEnd(b, w, i) == |w|
    decreases |w| - i
  {
  }

  lemma WordFirst(b: Blanks, w: string, rest: string)
    requires Solid(b, w) && (rest != "" ==> Blank(b, rest[0]))
    ensures Words(b, w + rest) == [w] + Words(b, rest)
  {
    WordsSplit(b, w, rest);
    SolidRun(b, w, 0);
    assert w[0..|w|] == w && w[0] in w;
  }

  lemma {:induction false} BlankText(b: Blanks, gap: string, i: nat)
    requires i <= |gap| && forall c | c in gap :: Blank(b, c)
    ensures WordsFrom(b, gap, i) == []
    decreases |gap| - i
  {
    if i < |gap| {
      assert gap[i] in gap;
      BlankText(b, gap, i + 1);
    }
  }

  /** Blanks at the end add no word. */
  lemma TrailingBlanks(b: Blanks, s: string, gap: string)
    requires forall c | c in gap :: Blank(b, c)
    ensures Words(b, s + gap) == Words(b, s)
  {
    if gap != "" {
      assert gap[0] in gap;
    }
    WordsSplit(b, s, gap);
    BlankText(b, gap, 0);
  }

  /** Blanks in front add no word. */
  lemma LeadingBlanks(b: Blanks, gap: string, s: string)
    requires forall c | c in gap :: Blank(b, c)
    ensures Words(b, gap + s) == Words(b, s)
    decreases |gap|
  {
    if gap == "" {
      assert gap + s == s;
    } else {
      assert gap[0] in gap;
      assert gap + s == [gap[0]] + (gap[1..] + s);
      WordsRight(b, [gap[0]], gap[1..] + s, 0);
      LeadingBlanks(b, gap[1..], s);
    }
  }

  /** Words with one separator between neighbours. */
  function Join(ws: seq<string>, sep: char): string {
    if ws == [] then "" else if |ws| == 1 then ws[0] else ws[0] + ([sep] + Join(ws[1..], sep))
  }

  lemma {:induction false} WordsOfJoin(b: Blanks, ws: seq<string>, sep: char)
    requires Blank(b, sep) && forall w | w in ws :: Solid(b, w)
    ensures Words(b, Join(ws, sep)) == ws
  {
    if |ws| == 1 {
      WordFirst(b, ws[0], "");
      assert ws[0] + "" == ws[0];
    } else if ws != [] {
      WordsOfJoin(b, ws[1..], sep);
      WordFirst(b, ws[0], [sep] + Join(ws[1..], sep));
      LeadingBlanks(b, [sep], Join(ws[1..], sep));
    }
  }

  // ---------- strstr ----------

  predicate At(s: string, pat: string, j: nat) {
    j + |pat| <= |s| && s[j..j + |pat|] == pat
  }

  /** The first occurrence at or after i. */
  function IndexOf(s: string, pat: string, i: nat): (r: Option<nat>)
    requires i <= |s|
    ensures r.Some? ==> i <= r.value && At(s, pat, r.value)
    decreases |s| - i
  {
    if At(s, pat, i) then Some(i) else if i == |s| then None else IndexOf(s, pat, i + 1)
  }

  lemma {:induction false} FirstOccurrence(s: string, pat: string, i: nat, k: nat)
    requires i <= k && At(s, pat, k) && forall j | i <= j < k :: !At(s, pat, j)
    ensures IndexOf(s, pat, i) == Some(k)
    decreases k - i
  {
    if i < k {
      FirstOccurrence(s, pat, i + 1, k);
    }
  }

  lemma {:induction false} IndexOfSome(s: string, pat: string, i: nat, k: nat)
    requires i <= k && At(s, pat, k)
    ensures IndexOf(s, pat, i).Some? && IndexOf(s, pat, i).value <= k
    decreases k - i
  {
    if !At(s, pat, i) {
      IndexOfSome(s, pat, i + 1, k);
    }
  }

  /** Nothing is found exactly if the pattern stands nowhere. */
  lemma NoneIff(s: string, pat: string)
    ensures IndexOf(s, pat, 0) == None <==> forall j: nat :: !At(s, pat, j)
  {
    if j: nat :| At(s, pat, j) {
      IndexOfSome(s, pat, 0, j);
    }
  }

  // ---------- decimal numbers ----------

  predicate IsDigit(c: char) {
    '0' <= c <= '9'
  }

  predicate Digits(s: string) {
    forall c | c in s :: IsDigit(c)
  }

  function DigitOf(n: nat): char
    requires n < 10
  {
    '0' + n as char
  }

  function ValueOf(c: char): nat
    requires IsDigit(c)
  {
    (c - '0') as nat
  }

  /** `%d` for a number that is not negative. */
  function ShowNat(n: nat): (s: string)
    ensures s != "" && Digits(s)
  {
    if n < 10 then [DigitOf(n)] else ShowNat(n / 10) + [DigitOf(n % 10)]
  }

  /** `%d`. */
  function Show(n: int): (s: string)
    ensures s != ""
  {
    if n < 0 then "-" + ShowNat(-n) else ShowNat(n)
  }

  /** The number a row of digits stands for. */
  function ReadNat(s: string): nat
    requires Digits(s)
  {
    if s == "" then 0 else 10 * ReadNat(s[..|s| - 1]) + ValueOf(s[|s| - 1])
  }

  lemma {:induction false} ReadShowNat(n: nat)
    ensures ReadNat(ShowNat(n)) == n
  {
    if n >= 10 {
      ReadShowNat(n / 10);
      assert ShowNat(n)[..|ShowNat(n)| - 1] == ShowNat(n / 10);
    }
  }

  /** No number but zero starts with the digit zero. */
  lemma {:induction false} ShowLeads(n: nat)
    ensures n == 0 ==> ShowNat(n) == "0"
    ensures n > 0 ==> ShowNat(n)[0] != '0'
  {
    if n >= 10 {
      ShowLeads(n / 10);
    }
  }

  /** The number of leading digits. */
  function DigitRun(s: string): (n: nat)
    ensures n <= |s| && Digits(s[..n])
    ensures n < |s| ==> !IsDigit(s[n])
  {
    if s == "" || !IsDigit(s[0]) then 0
    else
      var n := 1 + DigitRun(s[1..]);
      assert s[..n] == [s[0]] + s[1..][..n - 1];
      n
  }

  lemma DigitRunIs(s: string, n: nat)
    requires n <= |s| && Digits(s[..n]) && (n < |s| ==> !IsDigit(s[n]))
    ensures DigitRun(s) == n
  {
  }

  /** `atoi`, and `%lf` on text without point or exponent: blanks, a sign, then digits.
      The number and how many characters it takes; none if there is no digit. */
  datatype Scanned = NoNumber | Number(value: int, length: nat)

  function SkipBlanks(s: string): (n: nat)
    ensures n <= |s|
  {
    if s == "" || !Blank(CSpace, s[0]) then 0 else 1 + SkipBlanks(s[1..])
  }

  /** The digits at position d. */
  function ScanUnsigned(s: string, d: nat, negative: bool): (r: Scanned)
    requires d <= |s|
    ensures r.Number? ==> d < r.length <= |s|
  {
    var n := DigitRun(s[d..]);
    if n == 0 then NoNumber
    else
      var v: int := ReadNat(s[d..][..n]);
      Number(if negative then -v else v, d + n)
  }

  function ScanNumber(s: string): (r: Scanned)
    ensures r.Number? ==> 0 < r.length <= |s|
  {
    var b := SkipBlanks(s);
    if b < |s| && (s[b] == '-' || s[b] == '+') then ScanUnsigned(s, b + 1, s[b] == '-')
    else ScanUnsigned(s, b, false)
  }

  /** A printed number is read back, whatever follows it that is not a digit. */
  lemma {:induction false} ScanShow(n: int, rest: string)
    requires rest != "" ==> !IsDigit(rest[0])
    ensures ScanNumber(Show(n) + rest) == Number(n, |Show(n)|)
  {
    var m: nat := if n < 0 then -n else n;
    ScanDigits(n < 0, ShowNat(m), rest);
    ReadShowNat(m);
  }

  lemma ScanDigits(negative: bool, ds: string, rest: string)
    requires ds != "" && Digits(ds) && (rest != "" ==> !IsDigit(rest[0]))
    ensures var s, v: int := if negative then "-" + ds else ds, ReadNat(ds);
            ScanNumber(s + rest) == Number(if negative then -v else v, |s|)
  {
    assert ds[0] in ds;
    NoBlanksFirst(ds + rest);
    if negative {
      BehindSign(ds, rest);
      NoBlanksFirst("-" + ds + rest);
      ScanMarked("-" + ds + rest, 0, ds, rest);
    } else {
      assert (ds + rest)[0..] == ds + rest;
      ScanPlain(ds + rest, 0, ds, rest);
    }
  }

  lemma BehindSign(ds: string, rest: string)
    ensures ("-" + ds + rest)[0] == '-' && ("-" + ds + rest)[1..] == ds + rest
  {
  }

  lemma NoBlanksFirst(s: string)
    requires s != "" && !Blank(CSpace, s[0])
    ensures SkipBlanks(s) == 0
  {
  }

  lemma ScanPlain(s: string, b: nat, ds: string, rest: string)
    requires ds != "" && Digits(ds) && (rest != "" ==> !IsDigit(rest[0]))
    requires b <= |s| && s[b..] == ds + rest && SkipBlanks(s) == b
    ensures ScanNumber(s) == Number(ReadNat(ds), b + |ds|)
  {
    assert s[b] == ds[0] && ds[0] in ds;
    UnsignedAt(s, b, false, ds, rest);
  }

  lemma ScanMarked(s: string, b: nat, ds: string, rest: string)
    requires ds != "" && Digits(ds) && (rest != "" ==> !IsDigit(rest[0]))
    requires b < |s| && (s[b] == '+' || s[b] == '-') && s[b + 1..] == ds + rest && SkipBlanks(s) == b
    ensures var v: int := ReadNat(ds);
            ScanNumber(s) == Number(if s[b] == '-' then -v else v, b + 1 + |ds|)
  {
    UnsignedAt(s, b + 1, s[b] == '-', ds, rest);
  }

  lemma UnsignedAt(s: string, d: nat, negative: bool, ds: string, rest: string)
    requires ds != "" && Digits(ds) && (rest != "" ==> !IsDigit(rest[0]))
    requires d <= |s| && s[d..] == ds + rest
    ensures var v: int := ReadNat(ds);
            ScanUnsigned(s, d, negative) == Number(if negative then -v else v, d + |ds|)
  {
    assert (ds + rest)[..|ds|] == ds;
    DigitRunIs(ds + rest, |ds|);
  }

  lemma {:induction false} SkipGap(gap: string, t: string)
    requires (forall c | c in gap :: Blank(CSpace, c)) && (t != "" ==> !Blank(CSpace, t[0]))
    ensures SkipBlanks(gap + t) == |gap|
  {
    if gap == "" {
      assert gap + t == t;
    } else {
      assert gap[0] in gap && (gap + t)[1..] == gap[1..] + t;
      SkipGap(gap[1..], t);
    }
  }

  /** Blanks in front and a sign are taken as atoi takes them. */
  lemma ScanSignless(s: string, gap: string, ds: string, rest: string)
    requires (forall c | c in gap :: Blank(CSpace, c)) && ds != "" && Digits(ds) && (rest != "" ==> !IsDigit(rest[0]))
    requires s == gap + (ds + rest)
    ensures ScanNumber(s) == Number(ReadNat(ds), |gap| + |ds|)
  {
    assert ds[0] in ds;
    SkipGap(gap, ds + rest);
    ScanPlain(s, |gap|, ds, rest);
  }

  lemma SignBehindGap(s: string, gap: string, sign: char, t: string)
    requires s == gap + ([sign] + t)
    ensures |gap| < |s| && s[|gap|] == sign && s[|gap| + 1..] == t
  {
  }

  lemma ScanSigned(s: string, gap: string, sign: char, ds: string, rest: string)
    requires (forall c | c in gap :: Blank(CSpace, c)) && ds != "" && Digits(ds) && (rest != "" ==> !IsDigit(rest[0]))
    requires (sign == '+' || sign == '-') && s == gap + ([sign] + (ds + rest))
    ensures var v: int := ReadNat(ds); ScanNumber(s) == Number(if sign == '-' then -v else v, |gap| + 1 + |ds|)
  {
    SkipGap(gap, [sign] + (ds + rest));
    SignBehindGap(s, gap, sign, ds + rest);
    ScanMarked(s, |gap|, ds, rest);
  }

  /** The digits are the usual ones, to the base ten. */
  lemma UsualDigits(n: nat)
    ensures n < 10 ==> DigitOf(n) == "0123456789"[n] && ValueOf("0123456789"[n]) == n
    ensures Show(120) == "120" && Show(-7) == "-7" && Show(0) == "0"
  {
    assert ShowNat(12) == ShowNat(1) + ['2'] == "12";
    assert ShowNat(120) == ShowNat(12) + ['0'] == "120";
  }
}
