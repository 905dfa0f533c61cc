/** The order, filter and cursor text of the audit list, against plainer descriptions of them. */
module PagingLaws {
  import opened Prelude
  import opened EventCursor
  import opened EventPaging
  import AudienceExport

  // ---- the order --------------------------------------------------------------------------------

  /** A number that grows with the calendar: months of 32 days, so that no field carries into the next. */
  function Moment(t: Stamp): nat {
    (((((t.year * 16 + t.month) * 32 + t.day) * 32 + t.hour) * 64 + t.minute) * 64 + t.second) * 1_000_000_000 + t.nano
  }

  lemma {:induction false} EarlierIsBefore(a: Stamp, b: Stamp)
    requires ValidStamp(a) && ValidStamp(b)
    ensures Earlier(a, b) <==> Moment(a) < Moment(b)
  {}

  /** `a` ends where `b` goes on, or is smaller at the first character they differ in. */
  ghost predicate Sooner(a: string, b: string) {
    (a != b && a <= b)
    || exists k :: 0 <= k < |a| && k < |b| && a[..k] == b[..k] && a[k] < b[k]
  }

  lemma {:induction false} LessIsSooner(a: string, b: string)
    ensures Less(a, b) <==> Sooner(a, b)
  {
    if a != "" && b != "" {
      if a[0] == b[0] {
        LessIsSooner(a[1..], b[1..]);
        SoonerTail(a, b);
      } else {
        if Less(a, b) { assert a[..0] == b[..0] && a[0] < b[0]; }
      }
    }
  }

  lemma {:induction false} SoonerTail(a: string, b: string)
    requires a != "" && b != "" && a[0] == b[0]
    ensures Sooner(a, b) <==> Sooner(a[1..], b[1..])
  {
    var x, y := a[1..], b[1..];
    assert a == [a[0]] + x && b == [b[0]] + y;
    if k :| 0 <= k < |a| && k < |b| && a[..k] == b[..k] && a[k] < b[k] {
      assert x[..k - 1] == a[..k][1..] && y[..k - 1] == b[..k][1..];
      assert x[k - 1] < y[k - 1];
    }
    if k :| 0 <= k < |x| && k < |y| && x[..k] == y[..k] && x[k] < y[k] {
      assert a[..k + 1] == [a[0]] + x[..k] && b[..k + 1] == [b[0]] + y[..k];
      assert a[k + 1] < b[k + 1];
    }
  }

  /** The list runs from newer to older, and at one instant from the greater id to the smaller. */
  lemma {:induction false} ListRunsBack(s: seq<Event>, i: nat, j: nat)
    requires Descending(s) && i < j < |s| && ValidStamp(s[i].key.at) && ValidStamp(s[j].key.at)
    ensures Moment(s[j].key.at) <= Moment(s[i].key.at)
    ensures Moment(s[j].key.at) == Moment(s[i].key.at) ==> Sooner(s[j].key.id, s[i].key.id)
  {
    EarlierIsBefore(s[j].key.at, s[i].key.at);
    LessIsSooner(s[j].key.id, s[i].key.id);
    hide Moment, Earlier, Less, Sooner;
  }

  // ---- what is listed ---------------------------------------------------------------------------

  /** Each filter that is given must be met: the actor, action and subject as they are, and a time from the first
      instant on and before the second. */
  lemma {:induction false} MatchesMeans(f: Filter, e: Event)
    requires ValidStamp(e.key.at) && (f.from.Some? ==> ValidStamp(f.from.value))
        && (f.to.Some? ==> ValidStamp(f.to.value))
    ensures Matches(f, e) <==>
              && (f.actor == None || f.actor == e.actor)
              && (f.action == None || f.action == Some(e.action))
              && (f.subject == None || exists v :: v in e.subjects && f.subject == Some(v))
              && (f.from.Some? ==> Moment(f.from.value) <= Moment(e.key.at))
              && (f.to.Some? ==> Moment(e.key.at) < Moment(f.to.value))
  {
    if f.from.Some? { EarlierIsBefore(e.key.at, f.from.value); }
    if f.to.Some? { EarlierIsBefore(e.key.at, f.to.value); }
    hide Moment, Earlier;
  }

  /** A page holds what was asked for or all that is left: twenty if nothing was asked, never over a hundred. */
  lemma {:induction false} PageHolds(p: Page, events: set<Event>, f: Filter, c: Cursor, requested: int)
    requires IsPage(p, events, f, c, Limit(requested))
    ensures |p.items| <= 100 && (requested > 0 ==> |p.items| <= requested) && (requested <= 0 ==> |p.items| <= 20)
    ensures p.next.Some? ==> |p.items| == if requested <= 0 then 20 else if requested < 100 then requested else 100
    ensures p.next.None? ==> forall e :: e in p.items <==> e in events && Matches(f, e) && Past(e, c)
  {
    hide Descending, EncodeCursor, Matches, Past;
    var rows :| IsListing(rows, Selected(events, f, c)) && p == Cut(rows, Limit(requested));
  }

  /** The engine's own cap on an export page. */
  lemma {:induction false} EnginePageHolds(
      p: AudienceExport.Page, all: set<AudienceExport.Member>, after: string, limit: int)
    requires AudienceExport.IsPage(p, all, after, AudienceExport.Norm(limit))
    ensures p.next.Some? ==> |p.items| == if limit <= 0 then 20 else if limit < 100 then limit else 100
    ensures p.next.None? ==>
              forall m :: m in p.items <==> m in all && (after == "" || Sooner(after, m.userId))
  {
    hide AudienceExport.EncodeId, AudienceExport.Ascending;
    var rows :| AudienceExport.IsListing(rows, AudienceExport.Rest(all, after))
                && p == AudienceExport.Cut(rows, AudienceExport.Norm(limit));
    forall m: AudienceExport.Member ensures AudienceExport.Less(after, m.userId) <==> Sooner(after, m.userId) {
      LessIsSooner(after, m.userId);
    }
    hide Sooner, AudienceExport.Less;
  }

  // ---- the text of a cursor -----------------------------------------------------------------------

  /** The alphabet of section 5 of RFC 4648: capitals, small letters, digits, hyphen, underscore. */
  lemma {:induction false} Alphabet(n: nat)
    requires n < 64
    ensures Symbol(0) == 'A' && Symbol(26) == 'a' && Symbol(52) == '0' && Symbol(62) == '-' && Symbol(63) == '_'
    ensures n < 63 && n != 25 && n != 51 && n != 61 && n != 62 ==> Symbol(n + 1) as nat == Symbol(n) as nat + 1
  {}

  /** Three bytes are 24 bits, read as four symbols; a shorter tail is padded with zero bits (section 4 of RFC 4648). */
  lemma {:induction false} GroupsOfBits(s: Bytes) returns (v: seq<nat>)
    requires s != ""
    ensures |v| == if |s| == 1 then 2 else if |s| == 2 then 3 else 4
    ensures |Encode64(s)| >= |v| && forall i :: 0 <= i < |v| ==> v[i] < 64 && Encode64(s)[i] == Symbol(v[i])
    ensures |s| == 1 ==> v[0] * 64 + v[1] == s[0] as nat * 16 && |Encode64(s)| == 2
    ensures |s| == 2 ==> v[0] * 4096 + v[1] * 64 + v[2] == (s[0] as nat * 256 + s[1] as nat) * 4 && |Encode64(s)| == 3
    ensures |s| >= 3 ==>
              && v[0] * 262144 + v[1] * 4096 + v[2] * 64 + v[3] == s[0] as nat * 65536 + s[1] as nat * 256 + s[2] as nat
              && Encode64(s)[4..] == Encode64(s[3..])
  {
    hide Symbol;
    var a := s[0] as nat;
    var b := if |s| >= 2 then s[1] as nat else 0;
    var c := if |s| >= 3 then s[2] as nat else 0;
    v := [a / 4, a % 4 * 16 + b / 16, b % 16 * 4 + c / 64, c % 64];
    v := if |s| == 1 then v[..2] else if |s| == 2 then v[..3] else v;
  }

  function Digit(n: nat): char
    requires n < 10
  {
    '0' + n as char
  }

  lemma {:induction false} TwoDigits(n: nat)
    requires n < 100
    ensures Digits(n, 2) == [Digit(n / 10), Digit(n % 10)]
  {
    assert Digits(n / 10, 1) == Digits(n / 100, 0) + [Digit(n / 10 % 10)];
  }

  lemma {:induction false} FourDigits(n: nat)
    requires n < 10_000
    ensures Digits(n, 4) == [Digit(n / 1000), Digit(n / 100 % 10), Digit(n / 10 % 10), Digit(n % 10)]
  {
    TwoDigits(n / 100);
    assert n / 10 / 10 == n / 100 && n / 100 / 10 == n / 1000;
    assert Digits(n / 10, 3) == Digits(n / 100, 2) + [Digit(n / 10 % 10)];
    assert Digits(n, 4) == Digits(n / 10, 3) + [Digit(n % 10)];
  }

  /** The timestamp text: year, month, day, hour, minute and second where RFC 3339 has them (section 5.6), then the
      fraction, without zeros at its end. */
  lemma {:induction false} StampText(t: Stamp)
    requires ValidStamp(t)
    ensures var s := FormatStamp(t);
            && |s| >= 20 && s[4] == '-' && s[7] == '-' && s[10] == 'T' && s[13] == ':' && s[16] == ':'
              && s[|s| - 1] == 'Z'
            && s[..4] == [Digit(t.year / 1000), Digit(t.year / 100 % 10), Digit(t.year / 10 % 10), Digit(t.year % 10)]
            && s[5..7] == [Digit(t.month / 10), Digit(t.month % 10)]
              && s[8..10] == [Digit(t.day / 10), Digit(t.day % 10)]
            && s[11..13] == [Digit(t.hour / 10), Digit(t.hour % 10)]
            && s[14..16] == [Digit(t.minute / 10), Digit(t.minute % 10)]
            && s[17..19] == [Digit(t.second / 10), Digit(t.second % 10)]
            && s[19..|s| - 1] == Fraction(t.nano)
  {
    FourDigits(t.year);
    TwoDigits(t.month);
    TwoDigits(t.day);
    TwoDigits(t.hour);
    TwoDigits(t.minute);
    TwoDigits(t.second);
    hide Digits, Fraction;
    DatePieces(Digits(t.year, 4), Digits(t.month, 2), Digits(t.day, 2), FormatDate(t));
    TimePieces(Digits(t.hour, 2), Digits(t.minute, 2), Digits(t.second, 2), Fraction(t.nano), FormatTime(t));
    Pieces(FormatDate(t), FormatTime(t));
  }

  lemma {:induction false} FractionText(nano: nat)
    requires nano < 1_000_000_000
    ensures var s := Fraction(nano);
            && (s == "" <==> nano == 0)
            && (s != "" ==> 2 <= |s| <= 10 && s[0] == '.' && s[|s| - 1] != '0'
                            && Number(s[1..] + Zeros(10 - |s|)) == Some(nano))
  {
    Powers();
    NumberOfDigits(nano, 9);
    TrimmedPads(Digits(nano, 9));
    LastIsNoZero(Digits(nano, 9));
    ZerosAreZero(9);
    var f := TrimZeros(Digits(nano, 9));
    if f == "" {
      assert Digits(nano, 9) == Zeros(9);
    } else {
      assert ("." + f)[1..] == f;
      if nano == 0 {
        ZeroDigits(9);
        AllZeros(9);
      }
    }
  }

  lemma {:induction false} ZeroDigits(k: nat)
    ensures Digits(0, k) == Zeros(k)
  {
    if k > 0 {
      ZeroDigits(k - 1);
      assert Zeros(k) == Zeros(k - 1) + ['0'];
    }
  }

  lemma {:induction false} AllZeros(k: nat)
    ensures TrimZeros(Zeros(k)) == ""
  {
    if k > 0 {
      AllZeros(k - 1);
      assert Zeros(k)[..k - 1] == Zeros(k - 1);
    }
  }

  lemma {:induction false} LastIsNoZero(s: string)
    ensures TrimZeros(s) != "" ==> TrimZeros(s)[|TrimZeros(s)| - 1] != '0'
  {
    if s != "" && s[|s| - 1] == '0' { LastIsNoZero(s[..|s| - 1]); }
  }

  /** The text under a cursor is the instant, a bar and the id. */
  lemma {:induction false} CursorText(k: Key)
    ensures EncodeCursor(k) == Encode64(Joined(k)) && Joined(k) == FormatStamp(k.at) + "|" + k.id
  {
    hide Encode64, FormatStamp;
  }
}
