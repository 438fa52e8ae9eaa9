/** The parts of Go's `strings` and `strconv` packages that the driver's parsers rely on,
    written as functions on Dafny strings, with the laws the other modules use. */
module GoStrings {

  datatype Option<+T> = None | Some(value: T)

  datatype Result<+T> = Success(value: T) | Failure(error: string)

  // ----- strings.Split / strings.Join on a one-character separator -----

  /** The pieces of `s` between separators; never empty. */
  function Split(s: string, sep: char): (pieces: seq<string>)
    ensures |pieces| >= 1
    ensures forall i :: 0 <= i < |pieces| ==> sep !in pieces[i]
  {
    if s == "" then [""] else Prepend(s[0], sep, Split(s[1..], sep))
  }

  function Prepend(c: char, sep: char, pieces: seq<string>): (r: seq<string>)
    requires |pieces| >= 1
    ensures |r| == if c == sep then |pieces| + 1 else |pieces|
  {
    if c == sep then [""] + pieces else [[c] + pieces[0]] + pieces[1..]
  }

  function Join(pieces: seq<string>, sep: char): string {
    if |pieces| == 0 then ""
    else if |pieces| == 1 then pieces[0]
    else pieces[0] + [sep] + Join(pieces[1..], sep)
  }

  /** Joining the pieces gives the text back, so distinct texts have distinct pieces. */
  lemma {:induction false} JoinSplit(s: string, sep: char)
    ensures Join(Split(s, sep), sep) == s
    decreases |s|
  {
    if s != "" {
      JoinSplit(s[1..], sep);
      JoinPrepend(s[0], sep, Split(s[1..], sep));
      assert s == [s[0]] + s[1..];
    }
  }

  lemma JoinPrepend(c: char, sep: char, pieces: seq<string>)
    requires |pieces| >= 1
    ensures Join(Prepend(c, sep, pieces), sep) == [c] + Join(pieces, sep)
  {
    var r := Prepend(c, sep, pieces);
    if c == sep {
      assert r[1..] == pieces;
    } else if |pieces| > 1 {
      assert r[1..] == pieces[1..];
    }
  }

  lemma SplitInjective(s: string, t: string, sep: char)
    requires Split(s, sep) == Split(t, sep)
    ensures s == t
  {
    JoinSplit(s, sep);
    JoinSplit(t, sep);
  }

  /** Splitting is local: pieces of `a` and of `b` meet at the separator between them. */
  lemma {:induction false} SplitConcat(a: string, b: string, sep: char)
    ensures Split(a + [sep] + b, sep) == Split(a, sep) + Split(b, sep)
    decreases |a|
  {
    var s := a + [sep] + b;
    if a == "" {
      assert s[1..] == b;
    } else {
      SplitConcat(a[1..], b, sep);
      assert s[1..] == a[1..] + [sep] + b;
      PrependConcat(a[0], sep, Split(a[1..], sep), Split(b, sep));
    }
  }

  lemma PrependConcat(c: char, sep: char, a: seq<string>, b: seq<string>)
    requires |a| >= 1
    ensures Prepend(c, sep, a + b) == Prepend(c, sep, a) + b
  {
  }

  lemma {:induction false} SplitPiece(p: string, sep: char)
    requires sep !in p
    ensures Split(p, sep) == [p]
    decreases |p|
  {
    if p != "" {
      SplitPiece(p[1..], sep);
      assert [p[0]] + p[1..] == p;
    }
  }

  /** A separator-free prefix up to a separator is the first piece. */
  lemma SplitCons(p: string, rest: string, sep: char)
    requires sep !in p
    ensures Split(p + [sep] + rest, sep) == [p] + Split(rest, sep)
  {
    SplitConcat(p, rest, sep);
    SplitPiece(p, sep);
  }

  /** The first position of `c`, or -1. */
  function IndexOf(s: string, c: char): (i: int)
    ensures -1 <= i < |s|
    ensures i == -1 <==> c !in s
    ensures i >= 0 ==> s[i] == c && c !in s[..i]
  {
    if s == "" then -1
    else if s[0] == c then 0
    else
      var j := IndexOf(s[1..], c);
      assert j >= 0 ==> s[..j + 1] == [s[0]] + s[1..][..j];
      if j == -1 then -1 else j + 1
  }

  lemma IndexOfFirst(s: string, c: char, i: nat)
    requires i < |s| && s[i] == c && c !in s[..i]
    ensures IndexOf(s, c) == i
  {
    var j := IndexOf(s, c);
    assert forall k :: 0 <= k < j ==> s[..j][k] == s[k];
    assert forall k :: 0 <= k < i ==> s[..i][k] == s[k];
  }

  /** The last position of `c`, or -1. */
  function LastIndexOf(s: string, c: char): (i: int)
    ensures -1 <= i < |s|
    ensures i >= 0 ==> s[i] == c
    ensures forall k :: i < k < |s| ==> s[k] != c
  {
    if s == "" then -1 else if s[|s| - 1] == c then |s| - 1 else LastIndexOf(s[..|s| - 1], c)
  }

  // ----- Lines -----

  /** Every line followed by its newline. */
  function Unlines(lines: seq<string>): string {
    if lines == [] then "" else lines[0] + ['\n'] + Unlines(lines[1..])
  }

  predicate OneLine(s: string) {
    '\n' !in s
  }

  lemma {:induction false} UnlinesConcat(a: seq<string>, b: seq<string>)
    ensures Unlines(a + b) == Unlines(a) + Unlines(b)
    decreases |a|
  {
    if a == [] {
      assert a + b == b;
    } else {
      UnlinesConcat(a[1..], b);
      assert (a + b)[1..] == a[1..] + b;
    }
  }

  /** Reading lines back: a final empty piece follows the last newline. */
  lemma {:induction false} SplitUnlines(lines: seq<string>)
    requires forall i :: 0 <= i < |lines| ==> OneLine(lines[i])
    ensures Split(Unlines(lines), '\n') == lines + [""]
    decreases |lines|
  {
    if lines != [] {
      SplitUnlines(lines[1..]);
      SplitCons(lines[0], Unlines(lines[1..]), '\n');
    }
  }

  // ----- White space, as unicode.IsSpace defines it -----

  predicate IsSpace(c: char) {
    || '\t' <= c <= '\r' || c == ' ' || c == '\U{85}' || c == '\U{A0}' || c == '\U{1680}'
    || '\U{2000}' <= c <= '\U{200A}' || c == '\U{2028}' || c == '\U{2029}'
    || c == '\U{202F}' || c == '\U{205F}' || c == '\U{3000}'
  }

  predicate NoSpace(s: string) {
    forall i :: 0 <= i < |s| ==> !IsSpace(s[i])
  }

  function TrimLeft(s: string): (t: string)
    ensures |t| <= |s| && t == s[|s| - |t|..]
    ensures t != "" ==> !IsSpace(t[0])
  {
    if s != "" && IsSpace(s[0]) then TrimLeft(s[1..]) else s
  }

  function TrimRight(s: string): (t: string)
    ensures t <= s
    ensures t != "" ==> !IsSpace(t[|t| - 1])
  {
    if s != "" && IsSpace(s[|s| - 1]) then TrimRight(s[..|s| - 1]) else s
  }

  function TrimSpace(s: string): string {
    TrimRight(TrimLeft(s))
  }

  lemma TrimSpaceIs(s: string)
    requires s != "" && !IsSpace(s[0]) && !IsSpace(s[|s| - 1])
    ensures TrimSpace(s) == s
  {
  }

  predicate AllSpace(s: string) {
    forall i :: 0 <= i < |s| ==> IsSpace(s[i])
  }

  lemma {:induction false} TrimLeftSpace(pre: string, s: string)
    requires AllSpace(pre) && (s != "" ==> !IsSpace(s[0]))
    ensures TrimLeft(pre + s) == s
    decreases |pre|
  {
    hide IsSpace;
    if pre == "" {
      assert pre + s == s;
    } else {
      assert (pre + s)[1..] == pre[1..] + s && (pre + s)[0] == pre[0];
      TrimLeftSpace(pre[1..], s);
    }
  }

  lemma {:induction false} TrimRightSpace(s: string, post: string)
    requires AllSpace(post) && (s != "" ==> !IsSpace(s[|s| - 1]))
    ensures TrimRight(s + post) == s
    decreases |post|
  {
    hide IsSpace;
    var k := |post| - 1;
    if post == "" {
      assert s + post == s;
    } else {
      assert (s + post)[..|s + post| - 1] == s + post[..k] && (s + post)[|s + post| - 1] == post[k];
      TrimRightSpace(s, post[..k]);
    }
  }

  /** Trimming takes away the space around a text, and nothing else. */
  lemma TrimSpaceAround(pre: string, s: string, post: string)
    requires AllSpace(pre) && AllSpace(post) && (s != "" ==> !IsSpace(s[0]) && !IsSpace(s[|s| - 1]))
    ensures TrimSpace(pre + (s + post)) == s
  {
    hide IsSpace, TrimLeft, TrimRight;
    if s == "" {
      assert pre + (s + post) == (pre + post) + "";
      TrimLeftSpace(pre + post, "");
      TrimRightSpace("", "");
      assert "" + "" == "";
    } else {
      TrimLeftSpace(pre, s + post);
      TrimRightSpace(s, post);
    }
  }

  /** The length of the space-free prefix. */
  function WordLength(s: string): (n: nat)
    ensures n <= |s| && NoSpace(s[..n])
    ensures n < |s| ==> IsSpace(s[n])
  {
    if s == "" || IsSpace(s[0]) then 0
    else
      var n := 1 + WordLength(s[1..]);
      assert s[..n] == [s[0]] + s[1..][..n - 1];
      n
  }

  lemma {:induction false} WordLengthIs(w: string, rest: string)
    requires NoSpace(w) && (rest != "" ==> IsSpace(rest[0]))
    ensures WordLength(w + rest) == |w|
    decreases |w|
  {
    if w != "" {
      assert (w + rest)[1..] == w[1..] + rest;
      WordLengthIs(w[1..], rest);
    } else {
      assert w + rest == rest;
    }
  }

  /** strings.Fields: the maximal space-free words. */
  function Fields(s: string): seq<string>
    decreases |s|
  {
    var t := TrimLeft(s);
    if t == "" then []
    else
      var n := WordLength(t);
      [t[..n]] + Fields(t[n..])
  }

  lemma {:induction false} FieldsAreWords(s: string, i: nat)
    requires i < |Fields(s)|
    ensures NoSpace(Fields(s)[i])
    decreases |s|
  {
    hide IsSpace, NoSpace, TrimLeft, WordLength;
    var t := TrimLeft(s);
    if i > 0 { FieldsAreWords(t[WordLength(t)..], i - 1); }
  }

  lemma {:induction false} TrimLeftMore(s: string, c: char)
    requires IsSpace(c)
    ensures TrimLeft(s + [c]) == if TrimLeft(s) == "" then "" else TrimLeft(s) + [c]
    decreases |s|
  {
    hide IsSpace;
    var more := s + [c];
    if s == "" {
      assert more == [c] && more[1..] == "";
      assert TrimLeft("") == "";
    } else {
      assert more[0] == s[0] && more[1..] == s[1..] + [c];
      if IsSpace(s[0]) {
        TrimLeftMore(s[1..], c);
        assert TrimLeft(more) == TrimLeft(s[1..] + [c]) && TrimLeft(s) == TrimLeft(s[1..]);
      }
    }
  }

  lemma {:induction false} WordLengthMore(s: string, c: char)
    requires IsSpace(c)
    ensures WordLength(s + [c]) == WordLength(s)
    decreases |s|
  {
    hide IsSpace;
    if s == "" {
      assert s + [c] == [c];
    } else {
      assert (s + [c])[1..] == s[1..] + [c];
      WordLengthMore(s[1..], c);
    }
  }

  lemma {:induction false} FieldsMore(s: string, c: char)
    requires IsSpace(c)
    ensures Fields(s + [c]) == Fields(s)
    decreases |s|
  {
    hide IsSpace, NoSpace, TrimLeft, WordLength;
    TrimLeftMore(s, c);
    var t := TrimLeft(s);
    if t != "" {
      var n := WordLength(t);
      WordLengthMore(t, c);
      WordNonempty(t);
      assert (t + [c])[..n] == t[..n] && (t + [c])[n..] == t[n..] + [c];
      FieldsMore(t[n..], c);
    }
  }

  lemma WordNonempty(t: string)
    requires t != "" && !IsSpace(t[0])
    ensures WordLength(t) > 0
  {
  }

  lemma {:induction false} FieldsTrimRight(s: string)
    ensures Fields(TrimRight(s)) == Fields(s)
    decreases |s|
  {
    hide IsSpace, Fields;
    if s != "" && IsSpace(s[|s| - 1]) {
      var init := s[..|s| - 1];
      FieldsTrimRight(init);
      FieldsMore(init, s[|s| - 1]);
      assert s == init + [s[|s| - 1]];
    }
  }

  lemma FieldsTrimLeft(s: string)
    ensures Fields(TrimLeft(s)) == Fields(s)
  {
    var t := TrimLeft(s);
    assert TrimLeft(t) == t;
    hide IsSpace, NoSpace, TrimLeft, WordLength;
  }

  /** Space around a text does not change its words. */
  lemma FieldsTrimSpace(s: string)
    ensures Fields(TrimSpace(s)) == Fields(s)
  {
    FieldsTrimLeft(s);
    FieldsTrimRight(TrimLeft(s));
    hide Fields, TrimLeft, TrimRight;
  }

  /** A word in front, followed by space or nothing, is the first word. */
  lemma FieldsCons(w: string, rest: string)
    requires w != "" && NoSpace(w) && (rest != "" ==> IsSpace(rest[0]))
    ensures Fields(w + rest) == [w] + Fields(rest)
  {
    var s := w + rest;
    WordLengthIs(w, rest);
    assert s[0] == w[0] && TrimLeft(s) == s;
    hide IsSpace, NoSpace, TrimLeft, WordLength;
    assert s[..|w|] == w && s[|w|..] == rest;
  }

  /** A trimmed text that is not empty begins with its first word. */
  lemma FirstWord(s: string)
    ensures TrimSpace(s) == "" <==> Fields(s) == []
    ensures Fields(s) != [] ==> Fields(s)[0] != "" && TrimSpace(s)[0] == Fields(s)[0][0]
  {
    var t := TrimSpace(s);
    FieldsTrimSpace(s);
    TrimmedFront(s);
    if t != "" { WordNonempty(t); }
    hide IsSpace, NoSpace, TrimSpace, TrimLeft, WordLength;
  }

  lemma TrimmedFront(s: string)
    ensures var t := TrimSpace(s); TrimLeft(t) == t && (t != "" ==> !IsSpace(t[0]))
  {
    var l := TrimLeft(s);
    var t := TrimRight(l);
    assert t != "" ==> t[0] == l[0];
    hide IsSpace;
  }

  lemma TrimLeftWord(w: string)
    requires w != "" && NoSpace(w)
    ensures TrimLeft(w) == w && TrimLeft(" " + w) == w
  {
    assert (" " + w)[1..] == w;
  }

  lemma FieldsWord(w: string)
    requires w != "" && NoSpace(w)
    ensures Fields(w) == [w] && Fields(" " + w) == [w]
  {
    TrimLeftWord(w);
    WordLengthIs(w, "");
    assert w + "" == w && w[|w|..] == "";
    assert TrimLeft("") == "";
    hide NoSpace, IsSpace, TrimLeft, WordLength;
  }

  lemma FieldsTwo(a: string, b: string)
    requires a != "" && b != "" && NoSpace(a) && NoSpace(b)
    ensures Fields(a + " " + b) == [a, b]
  {
    hide NoSpace, IsSpace, TrimLeft, WordLength;
    var s := a + " " + b;
    assert s == a + (" " + b);
    FieldsWord(b);
    WordThenBlank(a, b);
    assert s[..|a|] == a && s[|a|..] == " " + b;
  }

  lemma WordThenBlank(a: string, b: string)
    requires a != "" && NoSpace(a)
    ensures TrimLeft(a + (" " + b)) == a + (" " + b) && WordLength(a + (" " + b)) == |a|
  {
    var rest := " " + b;
    assert rest[0] == ' ';
    WordLengthIs(a, rest);
    assert (a + rest)[0] == a[0];
    hide WordLength;
  }

  // ----- strconv.Itoa, strconv.Atoi and strconv.ParseInt(s, 10, 64) -----

  const MAX_INT64: int := 0x7FFF_FFFF_FFFF_FFFF

  predicate IsDigit(c: char) {
    '0' <= c <= '9'
  }

  predicate AllDigits(s: string) {
    forall i :: 0 <= i < |s| ==> IsDigit(s[i])
  }

  function DigitsValue(s: string): nat
    requires AllDigits(s)
  {
    if s == "" then 0 else 10 * DigitsValue(s[..|s| - 1]) + (s[|s| - 1] as int - '0' as int)
  }

  function ItoaNat(n: nat): (s: string)
    ensures s != "" && AllDigits(s)
  {
    var digit := ('0' as int + n % 10) as char;
    if n < 10 then [digit] else ItoaNat(n / 10) + [digit]
  }

  function Itoa(n: int): string {
    if n < 0 then "-" + ItoaNat(-n) else ItoaNat(n)
  }

  /** An optional sign, then decimal digits whose value fits an int64. */
  function Atoi(s: string): Option<int> {
    var signed := s != "" && (s[0] == '-' || s[0] == '+');
    var digits := if signed then s[1..] else s;
    if digits == "" || !AllDigits(digits) then None
    else
      var n := (if signed && s[0] == '-' then -1 else 1) * DigitsValue(digits);
      if -MAX_INT64 - 1 <= n <= MAX_INT64 then Some(n) else None
  }

  lemma {:induction false} ItoaNatValue(n: nat)
    ensures DigitsValue(ItoaNat(n)) == n
  {
    if n >= 10 {
      ItoaNatValue(n / 10);
      var s := ItoaNat(n);
      assert s[..|s| - 1] == ItoaNat(n / 10);
    }
  }

  lemma AtoiItoa(n: int)
    requires -MAX_INT64 - 1 <= n <= MAX_INT64
    ensures Atoi(Itoa(n)) == Some(n)
  {
    ItoaNatValue(if n < 0 then -n else n);
    if n < 0 {
      assert Itoa(n)[1..] == ItoaNat(-n);
    } else {
      assert IsDigit(Itoa(n)[0]);
    }
  }

  predicate Zeros(s: string) {
    forall i :: 0 <= i < |s| ==> s[i] == '0'
  }

  function Abs(n: int): nat {
    if n < 0 then -n else n
  }

  ghost predicate SpelledWith(s: string, n: int, sign: string, zeros: string) {
    && Zeros(zeros) && (sign == "" || sign == "+" || sign == "-") && (n < 0 ==> sign == "-") && (n > 0 ==> sign != "-")
    && s == sign + (zeros + ItoaNat(Abs(n)))
  }

  /** `s` is a decimal spelling of `n`: an optional sign, leading zeros, the digits of `n`. */
  ghost predicate Spells(s: string, n: int) {
    exists sign, zeros :: SpelledWith(s, n, sign, zeros)
  }

  lemma {:induction false} ZerosValue(zeros: string, d: string)
    requires Zeros(zeros) && AllDigits(d)
    ensures AllDigits(zeros + d) && DigitsValue(zeros + d) == DigitsValue(d)
    decreases |d|, |zeros|
  {
    if d != "" {
      ZerosValue(zeros, d[..|d| - 1]);
      assert (zeros + d)[..|zeros + d| - 1] == zeros + d[..|d| - 1];
    } else if zeros != "" {
      assert zeros + d == zeros && zeros[..|zeros| - 1] + d == zeros[..|zeros| - 1];
      ZerosValue(zeros[..|zeros| - 1], d);
    } else {
      assert zeros + d == "";
    }
  }

  /** Digits are leading zeros and the digits of their value. */
  lemma {:induction false} DigitsSpell(d: string) returns (zeros: string)
    requires d != "" && AllDigits(d)
    ensures Zeros(zeros) && d == zeros + ItoaNat(DigitsValue(d))
    decreases |d|
  {
    var init, last := d[..|d| - 1], d[|d| - 1];
    assert d == init + [last];
    var c := last as int - '0' as int;
    assert ItoaNat(c) == [last];
    if init == "" {
      zeros := "";
      assert d == [last] && DigitsValue("") == 0;
    } else {
      var z := DigitsSpell(init);
      var v := DigitsValue(init);
      zeros := if v == 0 then z + "0" else z;
      OneMoreDigit(v, last);
      assert d == z + (ItoaNat(v) + [last]);
      hide ItoaNat, AllDigits;
    }
  }

  lemma OneMoreDigit(v: nat, digit: char)
    requires IsDigit(digit)
    ensures var n := 10 * v + (digit as int - '0' as int);
            ItoaNat(v) + [digit] == if v == 0 then "0" + ItoaNat(n) else ItoaNat(n)
  {
    var c := digit as int - '0' as int;
    assert (10 * v + c) / 10 == v && (10 * v + c) % 10 == c;
  }

  lemma AtoiSigned(sign: string, d: string)
    requires (sign == "" || sign == "+" || sign == "-") && d != "" && AllDigits(d)
    ensures var n := (if sign == "-" then -1 else 1) * DigitsValue(d);
            Atoi(sign + d) == if -MAX_INT64 - 1 <= n <= MAX_INT64 then Some(n) else None
  {
    if sign == "" {
      assert sign + d == d && IsDigit(d[0]);
    } else {
      assert (sign + d)[1..] == d && (sign + d)[0] == sign[0];
    }
  }

  lemma SpelledIsRead(s: string, n: int, sign: string, zeros: string)
    requires SpelledWith(s, n, sign, zeros) && -MAX_INT64 - 1 <= n <= MAX_INT64
    ensures Atoi(s) == Some(n)
  {
    ZerosValue(zeros, ItoaNat(Abs(n)));
    ItoaNatValue(Abs(n));
    AtoiSigned(sign, zeros + ItoaNat(Abs(n)));
    hide Atoi, DigitsValue, ItoaNat, Zeros, AllDigits;
  }

  lemma SignAndDigits(s: string) returns (sign: string, d: string)
    requires Atoi(s).Some?
    ensures s == sign + d && d != "" && AllDigits(d) && (sign == "" || sign == "+" || sign == "-")
  {
    var signed := s[0] == '-' || s[0] == '+';
    sign, d := if signed then [s[0]] else "", if signed then s[1..] else s;
    assert sign == "" || sign == "+" || sign == "-";
  }

  lemma ReadIsSpelled(s: string) returns (sign: string, zeros: string)
    requires Atoi(s).Some?
    ensures SpelledWith(s, Atoi(s).value, sign, zeros)
  {
    var d;
    sign, d := SignAndDigits(s);
    hide Atoi, ItoaNat, Zeros, AllDigits, DigitsValue;
    zeros := DigitsSpell(d);
    AtoiSigned(sign, d);
  }

  /** Exactly the decimal spellings of an int64 are read, and as the number they spell. */
  lemma AtoiSpells(s: string, n: int)
    ensures Atoi(s) == Some(n) <==> Spells(s, n) && -MAX_INT64 - 1 <= n <= MAX_INT64
  {
    if Atoi(s) == Some(n) {
      var sign, zeros := ReadIsSpelled(s);
      AtoiRange(s);
    }
    hide Atoi, SpelledWith;
    if Spells(s, n) && -MAX_INT64 - 1 <= n <= MAX_INT64 {
      var sign, zeros :| SpelledWith(s, n, sign, zeros);
      SpelledIsRead(s, n, sign, zeros);
    }
  }

  lemma AtoiRange(s: string)
    requires Atoi(s).Some?
    ensures -MAX_INT64 - 1 <= Atoi(s).value <= MAX_INT64
  {
  }

  // ----- strconv.ParseBool -----

  function ParseBool(s: string): Option<bool> {
    if s in {"1", "t", "T", "TRUE", "true", "True"} then Some(true)
    else if s in {"0", "f", "F", "FALSE", "false", "False"} then Some(false)
    else None
  }
}
