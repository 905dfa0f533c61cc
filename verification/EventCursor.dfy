/** The opaque cursor of the audit list: base64 text of a timestamp, a bar and an event id. */
module EventCursor {
  import opened Prelude

  // Go strings are byte strings: one char per byte.
  type Bytes = s: string | forall i :: 0 <= i < |s| ==> s[i] as int < 256

  // ---- base64, URL alphabet, no padding ------------------------------------------------

  function Symbol(n: nat): char
    requires n < 64
  {
    if n < 26 then 'A' + n as char
    else if n < 52 then 'a' + (n - 26) as char
    else if n < 62 then '0' + (n - 52) as char
    else if n == 62 then '-' else '_'
  }

  function Value(c: char): Option<nat> {
    if 'A' <= c <= 'Z' then Some(c as nat - 'A' as nat)
    else if 'a' <= c <= 'z' then Some(c as nat - 'a' as nat + 26)
    else if '0' <= c <= '9' then Some(c as nat - '0' as nat + 52)
    else if c == '-' then Some(62)
    else if c == '_' then Some(63)
    else None
  }

  lemma {:induction false} ValueOfSymbol(n: nat)
    requires n < 64
    ensures Value(Symbol(n)) == Some(n) && Symbol(n) != '\r' && Symbol(n) != '\n'
  {}

  // The four symbols of three bytes; a shorter tail takes the first two or three of them.
  function First(a: nat): char
    requires a < 256
  {
    Symbol(a / 4)
  }

  function Second(a: nat, b: nat): char
    requires a < 256 && b < 256
  {
    Symbol(a % 4 * 16 + b / 16)
  }

  function Third(b: nat, c: nat): char
    requires b < 256 && c < 256
  {
    Symbol(b % 16 * 4 + c / 64)
  }

  function Fourth(c: nat): char
    requires c < 256
  {
    Symbol(c % 64)
  }

  function Encode64(s: Bytes): string {
    if s == "" then ""
    else
      var a := s[0] as nat;
      if |s| == 1 then [First(a), Second(a, 0)]
      else
        var b := s[1] as nat;
        if |s| == 2 then [First(a), Second(a, b), Third(b, 0)]
        else
          var c := s[2] as nat;
          [First(a), Second(a, b), Third(b, c), Fourth(c)] + Encode64(s[3..])
  }

  // The bytes two neighbouring symbols make.
  function ByteA(s0: char, s1: char): (r: Option<nat>)
    ensures r.Some? ==> r.value < 256
  {
    var x, y := Value(s0), Value(s1);
    if x.None? || y.None? then None else Some(x.value * 4 + y.value / 16)
  }

  function ByteB(s1: char, s2: char): (r: Option<nat>)
    ensures r.Some? ==> r.value < 256
  {
    var x, y := Value(s1), Value(s2);
    if x.None? || y.None? then None else Some(x.value % 16 * 16 + y.value / 4)
  }

  function ByteC(s2: char, s3: char): (r: Option<nat>)
    ensures r.Some? ==> r.value < 256
  {
    var x, y := Value(s2), Value(s3);
    if x.None? || y.None? then None else Some(x.value % 4 * 64 + y.value)
  }

  /** Line breaks are skipped; the unused low bits of the last symbol are not looked at. */
  function Unbroken(t: string): string {
    if t == "" then "" else (if t[0] == '\r' || t[0] == '\n' then "" else [t[0]]) + Unbroken(t[1..])
  }

  function Decode64(t: string): Option<Bytes> {
    DecodeGroups(Unbroken(t))
  }

  function DecodeGroups(t: string): Option<Bytes> {
    if t == "" then Some("")
    else if |t| == 1 then None
    else
      var a := ByteA(t[0], t[1]);
      if a.None? then None
      else if |t| == 2 then Some([a.value as char])
      else
        var b := ByteB(t[1], t[2]);
        if b.None? then None
        else if |t| == 3 then Some([a.value as char, b.value as char])
        else
          var c := ByteC(t[2], t[3]);
          if c.None? then None
          else
            match DecodeGroups(t[4..])
            case None => None
            case Some(rest) => Some([a.value as char, b.value as char, c.value as char] + rest)
  }

  predicate NoBreaks(t: string) {
    forall i :: 0 <= i < |t| ==> t[i] != '\r' && t[i] != '\n'
  }

  lemma {:induction false} UnbrokenSame(t: string)
    requires NoBreaks(t)
    ensures Unbroken(t) == t
  {
    if t != "" { UnbrokenSame(t[1..]); }
  }

  lemma {:induction false} Bytes3(a: nat, b: nat, c: nat)
    requires a < 256 && b < 256 && c < 256
    ensures a / 4 < 64 && a % 4 * 16 + b / 16 < 64 && b % 16 * 4 + c / 64 < 64 && c % 64 < 64
    ensures a / 4 * 4 + (a % 4 * 16 + b / 16) / 16 == a
    ensures (a % 4 * 16 + b / 16) % 16 * 16 + (b % 16 * 4 + c / 64) / 4 == b
    ensures (b % 16 * 4 + c / 64) % 4 * 64 + c % 64 == c
  {}

  lemma {:induction false} SymbolsUndo(a: nat, b: nat, c: nat)
    requires a < 256 && b < 256 && c < 256
    ensures ByteA(First(a), Second(a, b)) == Some(a)
    ensures ByteB(Second(a, b), Third(b, c)) == Some(b)
    ensures ByteC(Third(b, c), Fourth(c)) == Some(c)
    ensures NoBreaks([First(a), Second(a, b), Third(b, c), Fourth(c)])
  {
    Bytes3(a, b, c);
    ValueOfSymbol(a / 4);
    ValueOfSymbol(a % 4 * 16 + b / 16);
    ValueOfSymbol(b % 16 * 4 + c / 64);
    ValueOfSymbol(c % 64);
    hide Symbol, Value;
  }

  lemma {:induction false} Decode64Undoes(s: Bytes)
    ensures NoBreaks(Encode64(s)) && DecodeGroups(Encode64(s)) == Some(s)
  {
    hide First, Second, Third, Fourth, ByteA, ByteB, ByteC;
    if |s| == 1 {
      var a := s[0] as nat;
      SymbolsUndo(a, 0, 0);
      assert Encode64(s) == [First(a), Second(a, 0), Third(0, 0), Fourth(0)][..2];
      assert s == [s[0]];
    } else if |s| == 2 {
      var a, b := s[0] as nat, s[1] as nat;
      SymbolsUndo(a, b, 0);
      assert Encode64(s) == [First(a), Second(a, b), Third(b, 0), Fourth(0)][..3];
      assert s == [s[0], s[1]];
    } else if s != "" {
      SymbolsUndo(s[0] as nat, s[1] as nat, s[2] as nat);
      Decode64Undoes(s[3..]);
      var g := [First(s[0] as nat), Second(s[0] as nat, s[1] as nat), Third(s[1] as nat, s[2] as nat),
          Fourth(s[2] as nat)];
      assert Encode64(s) == g + Encode64(s[3..]);
      assert (g + Encode64(s[3..]))[4..] == Encode64(s[3..]);
      assert s == [s[0], s[1], s[2]] + s[3..];
    }
  }

  // ---- timestamps, as RFC 3339 with nanoseconds ------------------------------------------

  // A UTC instant by its calendar fields.
  datatype Stamp = Stamp(year: nat, month: nat, day: nat, hour: nat, minute: nat, second: nat, nano: nat)

  function DaysIn(year: nat, month: nat): nat {
    if month == 2 then (if year % 4 == 0 && (year % 100 != 0 || year % 400 == 0) then 29 else 28)
    else if month == 4 || month == 6 || month == 9 || month == 11 then 30 else 31
  }

  predicate ValidStamp(t: Stamp) {
    t.year < 10000 && 1 <= t.month <= 12 && 1 <= t.day <= DaysIn(t.year, t.month)
    && t.hour < 24 && t.minute < 60 && t.second < 60 && t.nano < 1_000_000_000
  }

  predicate IsDigit(c: char) {
    '0' <= c <= '9'
  }

  function Power10(k: nat): nat {
    if k == 0 then 1 else 10 * Power10(k - 1)
  }

  /** `n` in `k` decimal digits. */
  function Digits(n: nat, k: nat): (s: string)
    ensures |s| == k && forall i :: 0 <= i < k ==> IsDigit(s[i])
  {
    if k == 0 then "" else Digits(n / 10, k - 1) + ['0' + (n % 10) as char]
  }

  function Number(s: string): Option<nat> {
    if s == "" then Some(0)
    else
      match Number(s[..|s| - 1])
      case None => None
      case Some(n) => if IsDigit(s[|s| - 1]) then Some(n * 10 + (s[|s| - 1] as nat - '0' as nat)) else None
  }

  lemma {:induction false} NumberOfDigits(n: nat, k: nat)
    requires n < Power10(k)
    ensures Number(Digits(n, k)) == Some(n)
  {
    if k > 0 {
      NumberOfDigits(n / 10, k - 1);
      assert Digits(n, k)[..k - 1] == Digits(n / 10, k - 1);
    }
  }

  function TrimZeros(s: string): string {
    if s != "" && s[|s| - 1] == '0' then TrimZeros(s[..|s| - 1]) else s
  }

  function Zeros(k: nat): string {
    seq(k, i => '0')
  }

  lemma {:induction false} TrimmedPads(s: string)
    ensures var t := TrimZeros(s); |t| <= |s| && t + Zeros(|s| - |t|) == s
  {
    if s != "" && s[|s| - 1] == '0' {
      TrimmedPads(s[..|s| - 1]);
      var t := TrimZeros(s);
      assert Zeros(|s| - |t|) == Zeros(|s| - 1 - |t|) + ['0'];
      assert s == s[..|s| - 1] + ['0'];
    } else {
      assert Zeros(0) == "";
    }
  }

  function Fraction(nano: nat): string {
    var f := TrimZeros(Digits(nano, 9));
    if f == "" then "" else "." + f
  }

  function FormatDate(t: Stamp): string {
    Digits(t.year, 4) + "-" + Digits(t.month, 2) + "-" + Digits(t.day, 2) + "T"
  }

  function FormatTime(t: Stamp): string {
    Digits(t.hour, 2) + ":" + Digits(t.minute, 2) + ":" + Digits(t.second, 2) + Fraction(t.nano) + "Z"
  }

  function FormatStamp(t: Stamp): string {
    FormatDate(t) + FormatTime(t)
  }

  /** The fraction: nothing, or a point and one to nine digits. */
  function ParseFraction(s: string): Option<nat> {
    if s == "" then Some(0)
    else if s[0] != '.' || |s| == 1 || |s| > 10 then None
    else Number(s[1..] + Zeros(10 - |s|))
  }

  /** Reads the UTC form. */
  function ParseStamp(s: string): Option<Stamp> {
    if |s| < 20 || s[4] != '-' || s[7] != '-' || s[10] != 'T' || s[13] != ':' || s[16] != ':'
        || s[|s| - 1] != 'Z' then None
    else
      var y, mo, d := Number(s[..4]), Number(s[5..7]), Number(s[8..10]);
      var h, mi, sec := Number(s[11..13]), Number(s[14..16]), Number(s[17..19]);
      var f := ParseFraction(s[19..|s| - 1]);
      if y.None? || mo.None? || d.None? || h.None? || mi.None? || sec.None? || f.None? then None
      else
        var t := Stamp(y.value, mo.value, d.value, h.value, mi.value, sec.value, f.value);
        if ValidStamp(t) then Some(t) else None
  }

  lemma {:induction false} Powers()
    ensures Power10(2) == 100 && Power10(4) == 10_000 && Power10(9) == 1_000_000_000
  {
    assert Power10(3) == 1_000 && Power10(5) == 100_000 && Power10(7) == 10_000_000;
  }

  lemma {:induction false} FractionParses(nano: nat)
    requires nano < 1_000_000_000
    ensures ParseFraction(Fraction(nano)) == Some(nano) && |Fraction(nano)| <= 10
  {
    Powers();
    NumberOfDigits(nano, 9);
    TrimmedPads(Digits(nano, 9));
    var f := TrimZeros(Digits(nano, 9));
    if f == "" {
      assert Digits(nano, 9) == Zeros(9);
      ZerosAreZero(9);
    } else {
      assert ("." + f)[1..] == f;
    }
  }

  lemma {:induction false} ZerosAreZero(k: nat)
    ensures Number(Zeros(k)) == Some(0)
  {
    if k > 0 {
      ZerosAreZero(k - 1);
      assert Zeros(k)[..k - 1] == Zeros(k - 1);
    }
  }

  /** The pieces of a formatted timestamp are where the parser looks. */
  lemma {:induction false} InFront(p: string, q: string, i: nat, j: nat)
    requires i <= j <= |p|
    ensures (p + q)[i..j] == p[i..j]
  {}

  lemma {:induction false} InBack(p: string, q: string, i: nat, j: nat)
    requires i <= j <= |q|
    ensures (p + q)[|p| + i..|p| + j] == q[i..j]
  {}

  lemma {:induction false} DatePieces(y: string, mo: string, d: string, p: string)
    requires |y| == 4 && |mo| == 2 && |d| == 2 && p == y + "-" + mo + "-" + d + "T"
    ensures |p| == 11 && p[4] == '-' && p[7] == '-' && p[10] == 'T' && p[..4] == y && p[5..7] == mo && p[8..10] == d
  {}

  lemma {:induction false} TimePieces(h: string, mi: string, sec: string, f: string, q: string)
    requires |h| == 2 && |mi| == 2 && |sec| == 2 && q == h + ":" + mi + ":" + sec + f + "Z"
    ensures |q| == 9 + |f| && q[2] == ':' && q[5] == ':' && q[|q| - 1] == 'Z'
    ensures q[..2] == h && q[3..5] == mi && q[6..8] == sec && q[8..|q| - 1] == f
  {}

  /** The pieces of a formatted timestamp are where the parser looks. */
  lemma {:induction false} Pieces(p: string, q: string)
    requires |p| == 11 && |q| >= 9
    ensures var s := p + q;
            && s[4] == p[4] && s[7] == p[7] && s[10] == p[10] && s[13] == q[2] && s[16] == q[5]
              && s[|s| - 1] == q[|q| - 1]
            && s[..4] == p[..4] && s[5..7] == p[5..7] && s[8..10] == p[8..10]
            && s[11..13] == q[..2] && s[14..16] == q[3..5] && s[17..19] == q[6..8] && s[19..|s| - 1] == q[8..|q| - 1]
  {
    InFront(p, q, 0, 4);
    InFront(p, q, 5, 7);
    InFront(p, q, 8, 10);
    InBack(p, q, 0, 2);
    InBack(p, q, 3, 5);
    InBack(p, q, 6, 8);
    InBack(p, q, 8, |q| - 1);
  }

  lemma {:induction false} ParseUndoesFormat(t: Stamp)
    requires ValidStamp(t)
    ensures ParseStamp(FormatStamp(t)) == Some(t)
  {
    Powers();
    NumberOfDigits(t.year, 4);
    NumberOfDigits(t.month, 2);
    NumberOfDigits(t.day, 2);
    NumberOfDigits(t.hour, 2);
    NumberOfDigits(t.minute, 2);
    NumberOfDigits(t.second, 2);
    FractionParses(t.nano);
    hide Digits, Fraction, Number, ParseFraction;
    DatePieces(Digits(t.year, 4), Digits(t.month, 2), Digits(t.day, 2), FormatDate(t));
    TimePieces(Digits(t.hour, 2), Digits(t.minute, 2), Digits(t.second, 2), Fraction(t.nano), FormatTime(t));
    Pieces(FormatDate(t), FormatTime(t));
  }

  predicate InStamp(c: char) {
    IsDigit(c) || c == '-' || c == 'T' || c == ':' || c == '.' || c == 'Z'
  }

  lemma {:induction false} TrimmedDigits(s: string)
    requires forall i :: 0 <= i < |s| ==> IsDigit(s[i])
    ensures forall i :: 0 <= i < |TrimZeros(s)| ==> IsDigit(TrimZeros(s)[i])
  {
    if s != "" && s[|s| - 1] == '0' { TrimmedDigits(s[..|s| - 1]); }
  }

  lemma {:induction false} StampChars(t: Stamp)
    ensures forall i :: 0 <= i < |FormatStamp(t)| ==> InStamp(FormatStamp(t)[i])
  {
    hide Digits, TrimZeros;
    TrimmedDigits(Digits(t.nano, 9));
  }

  // ---- the cursor -----------------------------------------------------------------------------

  datatype Key = Key(at: Stamp, id: Bytes)

  predicate ValidKey(k: Key) {
    ValidStamp(k.at) && k.id != ""
  }

  function FirstBar(s: string): (k: nat)
    ensures k <= |s| && (forall i :: 0 <= i < k ==> s[i] != '|') && (k < |s| ==> s[k] == '|')
  {
    if s == "" || s[0] == '|' then 0 else 1 + FirstBar(s[1..])
  }

  function Joined(k: Key): Bytes {
    StampChars(k.at);
    FormatStamp(k.at) + "|" + k.id
  }

  function EncodeCursor(k: Key): string {
    Encode64(Joined(k))
  }

  datatype Cursor = Start | After(key: Key) | Malformed

  function DecodeCursor(c: string): Cursor {
    if c == "" then Start
    else
      match Decode64(c)
      case None => Malformed
      case Some(raw) =>
        var bar := FirstBar(raw);
        if bar == |raw| || bar + 1 == |raw| then Malformed
        else
          match ParseStamp(raw[..bar])
          case None => Malformed
          case Some(at) => After(Key(at, raw[bar + 1..]))
  }

  /** Decoding a cursor gives back the position it was made from, whatever the id contains. */
  lemma {:induction false} DecodeUndoesEncode(k: Key)
    requires ValidKey(k)
    ensures EncodeCursor(k) != "" && DecodeCursor(EncodeCursor(k)) == After(k)
  {
    hide FormatStamp, ParseStamp, Encode64, DecodeGroups;
    var raw := Joined(k);
    Decode64Undoes(raw);
    UnbrokenSame(Encode64(raw));
    EncodeEmpty();
    StampChars(k.at);
    ParseUndoesFormat(k.at);
    var n := |FormatStamp(k.at)|;
    assert raw[n] == '|';
    assert forall i :: 0 <= i < n ==> raw[i] == FormatStamp(k.at)[i] && raw[i] != '|';
    assert FirstBar(raw) == n;
    assert raw[..n] == FormatStamp(k.at) && raw[n + 1..] == k.id;
  }

  lemma {:induction false} EncodeEmpty()
    ensures Decode64("") == Some("")
  {}
}
