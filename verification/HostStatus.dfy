/**
  Host status records as text: the serializer of `include/proxy/HostStatus.h` and
  the parsing constructor of `src/proxy/HostStatus.cc`, which reads the text back
  from the persistent store.

  `Parse` takes the longest line its reader can hold and whether its numbers are
  bounded by `int`; the program's own reader is `Parse(text, 63, true)`.
 */
module HostStatus {
  import opened Options

  datatype Status = Init | Down | Up

  datatype Reason = Active | Local | Manual | SelfDetect

  const ALL: bv32 := 15

  function Bit(reason: Reason): bv32 {
    match reason case Active => 1 case Local => 2 case Manual => 4 case SelfDetect => 8
  }

  function ReasonName(reason: Reason): string {
    match reason
    case Active => "ACTIVE" case Local => "LOCAL" case Manual => "MANUAL" case SelfDetect => "SELF_DETECT"
  }

  datatype HostStatRec = HostStatRec(
    status: Status, reasons: bv32,
    activeMarked: int, localMarked: int, manualMarked: int, selfMarked: int,
    activeDown: nat, localDown: nat, manualDown: nat)
  {
    /** When the host was marked down for `reason`. */
    function Marked(reason: Reason): int {
      match reason
      case Active => activeMarked case Local => localMarked case Manual => manualMarked case SelfDetect => selfMarked
    }

    /** For how long it was marked down; self-detection has no such time. */
    function DownTime(reason: Reason): nat {
      match reason
      case Active => activeDown case Local => localDown case Manual => manualDown case SelfDetect => 0
    }

    function Put(reason: Reason, reasons: bv32, marked: int, down: nat): HostStatRec {
      match reason
      case Active => this.(reasons := reasons, activeMarked := marked, activeDown := down)
      case Local => this.(reasons := reasons, localMarked := marked, localDown := down)
      case Manual => this.(reasons := reasons, manualMarked := marked, manualDown := down)
      case SelfDetect => this.(reasons := reasons, selfMarked := marked)
    }
  }

  // ---------------------------------------------------------------------------
  // Text

  function Digit(d: nat): char
    requires d < 10
  {
    '0' + d as char
  }

  function Digits(n: nat): string {
    if n < 10 then [Digit(n)] else Digits(n / 10) + [Digit(n % 10)]
  }

  function Show(n: int): string {
    if n < 0 then "-" + Digits(-n) else Digits(n)
  }

  function JoinWith(sep: char, parts: seq<string>): string {
    if parts == [] then "" else if |parts| == 1 then parts[0] else parts[0] + [sep] + JoinWith(sep, parts[1..])
  }

  function StatusName(status: Status): string {
    match status case Init => "HOST_STATUS_INIT" case Down => "HOST_STATUS_DOWN" case Up => "HOST_STATUS_UP"
  }

  /** Whether the host is down for the reason with bit `bit`: 1 or 0. */
  function ReasonState(reasons: bv32, bit: bv32): nat {
    if reasons == 0 then 0 else if reasons & bit != 0 then 1 else 0
  }

  function StateName(state: nat): string {
    if state == 0 then "UP" else "DOWN"
  }

  /** The parts of one reason's field. */
  function Parts(r: HostStatRec, reason: Reason): seq<string> {
    [ReasonName(reason), StateName(ReasonState(r.reasons, Bit(reason))), Show(r.Marked(reason))] +
    if reason.SelfDetect? then [] else [Show(r.DownTime(reason))]
  }

  function Field(r: HostStatRec, reason: Reason): string {
    JoinWith(':', Parts(r, reason))
  }

  function Fields(r: HostStatRec, reasons: seq<Reason>): seq<string> {
    if reasons == [] then [] else [Field(r, reasons[0])] + Fields(r, reasons[1..])
  }

  const REASONS := [Active, Local, Manual, SelfDetect]

  /** The status, then a field for each reason. */
  function Text(r: HostStatRec): string {
    JoinWith(',', [StatusName(r.status)] + Fields(r, REASONS))
  }

  // ---------------------------------------------------------------------------
  // Reading

  function IndexOf(s: string, sep: char): (i: nat)
    ensures i <= |s|
    ensures i < |s| ==> s[i] == sep
    ensures forall j :: 0 <= j < i ==> s[j] != sep
  {
    if s == "" || s[0] == sep then 0 else 1 + IndexOf(s[1..], sep)
  }

  /** The pieces a loop of `getline` calls with room for `limit` characters reads: a longer piece is cut
      short and ends the loop. */
  function GetLines(s: string, sep: char, limit: nat): seq<string>
    decreases |s|
  {
    var i := IndexOf(s, sep);
    if i > limit then [s[..limit]]
    else if i == |s| then [s]
    else [s[..i]] + GetLines(s[i + 1..], sep, limit)
  }

  predicate IsDigit(c: char) {
    '0' <= c <= '9'
  }

  function DigitsLength(s: string): (n: nat)
    ensures n <= |s|
    ensures forall j :: 0 <= j < n ==> IsDigit(s[j])
    ensures n < |s| ==> !IsDigit(s[n])
  {
    if s == "" || !IsDigit(s[0]) then 0 else 1 + DigitsLength(s[1..])
  }

  function ValueOf(s: string): nat
    requires forall j :: 0 <= j < |s| ==> IsDigit(s[j])
  {
    if s == "" then 0
    else
      assert IsDigit(s[|s| - 1]);
      ValueOf(s[..|s| - 1]) * 10 + (s[|s| - 1] as int - '0' as int)
  }

  function SkipSpace(s: string): string {
    if s != "" && (s[0] == ' ' || '\t' <= s[0] <= '\r') then SkipSpace(s[1..]) else s
  }

  /** C's `atoi`.  A value that an `int` cannot hold has no defined result, here None. */
  function Atoi(text: string, bounded: bool): Option<int> {
    var s := SkipSpace(text);
    var negative := s != "" && s[0] == '-';
    var digits := if negative || (s != "" && s[0] == '+') then s[1..] else s;
    var magnitude: int := ValueOf(digits[..DigitsLength(digits)]);
    var n := if negative then -magnitude else magnitude;
    if bounded && !IsInt(n) then None else Some(n)
  }

  predicate IsInt(n: int) {
    -0x8000_0000 <= n < 0x8000_0000
  }

  /** An `int` stored into an `unsigned int`. */
  function Unsigned(n: int): nat {
    if n >= 0 then n else n % 0x1_0000_0000
  }

  function Mark(reasons: bv32, bit: bv32, down: bool): bv32 {
    if down then reasons | bit else if reasons & bit != 0 then reasons ^ bit else reasons
  }

  function ReasonNamed(name: string): Option<Reason> {
    if name == "ACTIVE" then Some(Active)
    else if name == "LOCAL" then Some(Local)
    else if name == "MANUAL" then Some(Manual)
    else if name == "SELF_DETECT" then Some(SelfDetect)
    else None
  }

  /** Store one reason's field.  A field without its last part, or a number out of range, has no result;
      a field of no known reason is passed over. */
  function ParseField(r: HostStatRec, f: seq<string>, bounded: bool): Option<HostStatRec>
    requires |f| == 3 || |f| == 4
  {
    match ReasonNamed(f[0])
    case None => Some(r)
    case Some(reason) =>
      if !reason.SelfDetect? && |f| == 3 then None
      else
        var marked := Atoi(f[2], bounded);
        var down := if reason.SelfDetect? then Some(0) else Atoi(f[3], bounded);
        if marked.None? || down.None? then None
        else Some(r.Put(reason, Mark(r.reasons, Bit(reason), f[1] == "DOWN"), marked.value, Unsigned(down.value)))
  }

  function ParseFields(r: HostStatRec, fields: seq<string>, limit: nat, bounded: bool): Option<HostStatRec>
    decreases |fields|
  {
    if fields == [] then Some(r)
    else
      var f := GetLines(fields[0], ':', limit);
      if |f| != 3 && |f| != 4 then None
      else
        match ParseField(r, f, bounded)
        case None => None
        case Some(r') => ParseFields(r', fields[1..], limit, bounded)
  }

  function StatusNamed(name: string): Status {
    if name == "HOST_STATUS_UP" then Up else if name == "HOST_STATUS_DOWN" then Down else Init
  }

  /** The parsing constructor.  Text it has no defined result for gives None. */
  function Parse(text: string, limit: nat, bounded: bool): Option<HostStatRec> {
    var fields := GetLines(text, ',', limit);
    if |fields| != 5 then None
    else ParseFields(HostStatRec(StatusNamed(fields[0]), 0, 0, 0, 0, 0, 0, 0, 0), fields[1..], limit, bounded)
  }

  lemma {:induction false} FieldsHaveParts(r: HostStatRec, fields: seq<string>, limit: nat, bounded: bool, i: nat)
    requires ParseFields(r, fields, limit, bounded).Some? && i < |fields|
    ensures 3 <= |GetLines(fields[i], ':', limit)| <= 4
    decreases |fields|
  {
    if i > 0 {
      var r' := ParseField(r, GetLines(fields[0], ':', limit), bounded).value;
      FieldsHaveParts(r', fields[1..], limit, bounded, i - 1);
    }
  }

  /** Text that is read as a record has a status and four fields, each of three or four parts. */
  lemma ReadTextHasFive(text: string, limit: nat, bounded: bool, i: nat)
    requires Parse(text, limit, bounded).Some? && 1 <= i <= 4
    ensures
      var f := GetLines(text, ',', limit);
      |f| == 5 && 3 <= |GetLines(f[i], ':', limit)| <= 4
  {
    var f := GetLines(text, ',', limit);
    FieldsHaveParts(HostStatRec(StatusNamed(f[0]), 0, 0, 0, 0, 0, 0, 0, 0), f[1..], limit, bounded, i - 1);
  }

  /** A field of no known reason is passed over; one of the first three reasons without its last part is not
      defined. */
  lemma OddFields(r: HostStatRec, f: seq<string>, bounded: bool)
    requires |f| == 3 || |f| == 4
    ensures f[0] !in {"ACTIVE", "LOCAL", "MANUAL", "SELF_DETECT"} ==> ParseField(r, f, bounded) == Some(r)
    ensures f[0] in {"ACTIVE", "LOCAL", "MANUAL"} && |f| == 3 ==> ParseField(r, f, bounded) == None
  {
    assert "ACTIVE"[0] == 'A' && "LOCAL"[0] == 'L' && "MANUAL"[0] == 'M' && "SELF_DETECT"[0] == 'S';
  }

  // ---------------------------------------------------------------------------
  // Splitting undoes joining

  ghost predicate Splittable(parts: seq<string>, sep: char, limit: nat) {
    parts != [] && forall i :: 0 <= i < |parts| ==> |parts[i]| <= limit && sep !in parts[i]
  }

  lemma {:induction false} SplitJoined(parts: seq<string>, sep: char, limit: nat)
    requires Splittable(parts, sep, limit)
    ensures GetLines(JoinWith(sep, parts), sep, limit) == parts
    decreases |parts|
  {
    if |parts| == 1 {
      LastLine(parts[0], sep, limit);
    } else {
      assert Splittable(parts[1..], sep, limit);
      SplitJoined(parts[1..], sep, limit);
      FirstLine(parts[0], JoinWith(sep, parts[1..]), sep, limit);
    }
  }

  lemma LastLine(part: string, sep: char, limit: nat)
    requires sep !in part && |part| <= limit
    ensures GetLines(part, sep, limit) == [part]
  {
    assert IndexOf(part, sep) == |part|;
  }

  lemma FirstLine(part: string, rest: string, sep: char, limit: nat)
    requires sep !in part && |part| <= limit
    ensures GetLines(part + [sep] + rest, sep, limit) == [part] + GetLines(rest, sep, limit)
  {
    CutFirst(part, rest, sep);
  }

  /** The first separator is the one after the first part. */
  lemma CutFirst(part: string, rest: string, sep: char)
    requires sep !in part
    ensures
      var s := part + [sep] + rest;
      IndexOf(s, sep) == |part| && s[..|part|] == part && s[|part| + 1..] == rest
  {
    var s := part + [sep] + rest;
    assert s[|part|] == sep;
    assert forall j :: 0 <= j < |part| ==> s[j] == part[j] && part[j] in part;
  }

  // ---------------------------------------------------------------------------
  // Numbers

  lemma {:induction false} DigitsRead(n: nat)
    ensures Digits(n) != "" && (forall j :: 0 <= j < |Digits(n)| ==> IsDigit(Digits(n)[j]))
    ensures ValueOf(Digits(n)) == n
    decreases n
  {
    if n >= 10 {
      DigitsRead(n / 10);
      var d := Digits(n);
      assert d[..|d| - 1] == Digits(n / 10);
    } else {
      assert Digits(n)[..0] == "";
    }
  }

  lemma AllDigits(s: string)
    requires forall j :: 0 <= j < |s| ==> IsDigit(s[j])
    ensures DigitsLength(s) == |s| && s[..DigitsLength(s)] == s
  {
  }

  /** `atoi` reads back what the stream printed. */
  lemma AtoiShow(n: int, bounded: bool)
    ensures Atoi(Show(n), bounded) == if bounded && !IsInt(n) then None else Some(n)
  {
    var m := if n < 0 then -n else n;
    var s, digits := Show(n), Digits(m);
    DigitsRead(m);
    AllDigits(digits);
    assert IsDigit(digits[0]);
    assert SkipSpace(s) == s;
    assert n < 0 ==> s[0] == '-' && s[1..] == digits;
    assert n >= 0 ==> s == digits;
  }

  predicate IsSpace(c: char) {
    c == ' ' || '\t' <= c <= '\r'
  }

  lemma {:induction false} SpacesSkipped(space: string, s: string)
    requires (forall i :: 0 <= i < |space| ==> IsSpace(space[i])) && (s == "" || !IsSpace(s[0]))
    ensures SkipSpace(space + s) == s
    decreases |space|
  {
    if space == "" {
      assert space + s == s;
    } else {
      SpacesSkipped(space[1..], s);
      assert (space + s)[1..] == space[1..] + s;
    }
  }

  lemma {:induction false} DigitsEnd(digits: string, rest: string)
    requires (forall i :: 0 <= i < |digits| ==> IsDigit(digits[i])) && (rest == "" || !IsDigit(rest[0]))
    ensures DigitsLength(digits + rest) == |digits|
    decreases |digits|
  {
    if digits == "" {
      assert digits + rest == rest;
    } else {
      DigitsEnd(digits[1..], rest);
      assert (digits + rest)[1..] == digits[1..] + rest;
    }
  }

  /** What `atoi` makes of spaces, a sign, digits and whatever follows: the digits' value with the sign. */
  lemma AtoiReads(space: string, sign: char, digits: string, rest: string)
    requires forall i :: 0 <= i < |space| ==> IsSpace(space[i])
    requires sign == '+' || sign == '-'
    requires (forall i :: 0 <= i < |digits| ==> IsDigit(digits[i])) && (rest == "" || !IsDigit(rest[0]))
    ensures
      var n: int := ValueOf(digits);
      Atoi(space + ([sign] + (digits + rest)), false) == Some(if sign == '-' then -n else n)
  {
    SpacesSkipped(space, [sign] + (digits + rest));
    DigitsEnd(digits, rest);
    AtoiSigned(space + ([sign] + (digits + rest)), sign, digits + rest, digits);
  }

  lemma AtoiSigned(text: string, sign: char, tail: string, digits: string)
    requires SkipSpace(text) == [sign] + tail && (sign == '+' || sign == '-')
    requires (forall i :: 0 <= i < |digits| ==> IsDigit(digits[i]))
    requires digits <= tail && DigitsLength(tail) == |digits|
    ensures
      var n: int := ValueOf(digits);
      Atoi(text, false) == Some(if sign == '-' then -n else n)
  {
    var s := SkipSpace(text);
    assert s[0] == sign && s[1..] == tail;
    assert tail[..|digits|] == digits;
  }

  /** A number read into an `unsigned int` is the same modulo 2^32. */
  lemma UnsignedIs(n: int)
    requires IsInt(n)
    ensures Unsigned(n) < 0x1_0000_0000 && (Unsigned(n) == n || Unsigned(n) == n + 0x1_0000_0000)
  {
  }

  /** A line that is too long ends the reading. */
  lemma LongLine(s: string, sep: char, limit: nat)
    requires limit < |s| && forall i :: 0 <= i <= limit ==> s[i] != sep
    ensures GetLines(s, sep, limit) == [s[..limit]]
  {
  }

  function Pow10(k: nat): nat {
    if k == 0 then 1 else 10 * Pow10(k - 1)
  }

  lemma {:induction false} DigitsAreFew(n: nat, k: nat)
    requires k >= 1 && n < Pow10(k)
    ensures |Digits(n)| <= k
    decreases k
  {
    if n >= 10 {
      assert Pow10(k) == 10 * Pow10(k - 1);
      DigitsAreFew(n / 10, k - 1);
    }
  }

  lemma ShowIsPlain(n: int, c: char)
    requires !IsDigit(c) && c != '-'
    ensures c !in Show(n)
  {
    DigitsRead(if n < 0 then -n else n);
  }

  /** Numbers as wide as the record's fields can hold print in at most 20 characters. */
  lemma ShowIsShort(n: int)
    requires -0x8000_0000_0000_0000 <= n < 0x8000_0000_0000_0000
    ensures |Show(n)| <= 20
  {
    assert Pow10(19) == 10_000_000_000_000_000_000 by {
      assert Pow10(5) == 100_000;
      assert Pow10(10) == 10_000_000_000;
      assert Pow10(15) == 1_000_000_000_000_000;
    }
    DigitsAreFew(if n < 0 then -n else n, 19);
  }

  // ---------------------------------------------------------------------------
  // Fields

  lemma {:induction false} JoinedHas(parts: seq<string>, sep: char, c: char)
    requires c != sep && forall i :: 0 <= i < |parts| ==> c !in parts[i]
    ensures c !in JoinWith(sep, parts)
    decreases |parts|
  {
    if |parts| > 1 {
      JoinedHas(parts[1..], sep, c);
    }
  }

  lemma {:induction false} JoinedIsLonger(parts: seq<string>, sep: char, i: nat)
    requires i < |parts|
    ensures |parts[i]| <= |JoinWith(sep, parts)|
    decreases |parts|
  {
    if |parts| > 1 && i > 0 {
      JoinedIsLonger(parts[1..], sep, i - 1);
    }
  }

  /** A field's parts can be told apart, and the field can be told from its neighbours. */
  ghost predicate Tidy(parts: seq<string>) {
    parts != [] && forall i :: 0 <= i < |parts| ==> ',' !in parts[i] && ':' !in parts[i]
  }

  lemma TidyField(parts: seq<string>, limit: nat)
    requires Tidy(parts) && |JoinWith(':', parts)| <= limit
    ensures GetLines(JoinWith(':', parts), ':', limit) == parts
    ensures ',' !in JoinWith(':', parts)
  {
    JoinedHas(parts, ':', ',');
    forall i | 0 <= i < |parts|
      ensures |parts[i]| <= limit
    {
      JoinedIsLonger(parts, ':', i);
    }
    SplitJoined(parts, ':', limit);
  }

  lemma NumbersAreTidy(n: int)
    ensures ',' !in Show(n) && ':' !in Show(n)
  {
    ShowIsPlain(n, ',');
    ShowIsPlain(n, ':');
  }

  lemma NamesAreTidy(reason: Reason, state: nat, status: Status)
    ensures ',' !in ReasonName(reason) && ':' !in ReasonName(reason)
    ensures ',' !in StateName(state) && ':' !in StateName(state) && ',' !in StatusName(status)
  {
  }

  lemma PartsAreTidy(r: HostStatRec, reason: Reason)
    ensures Tidy(Parts(r, reason))
  {
    NamesAreTidy(reason, ReasonState(r.reasons, Bit(reason)), r.status);
    NumbersAreTidy(r.Marked(reason));
    NumbersAreTidy(r.DownTime(reason));
  }

  lemma NamesAreKnown(reason: Reason, state: nat, status: Status)
    ensures ReasonNamed(ReasonName(reason)) == Some(reason)
    ensures StateName(state) == "DOWN" <==> state != 0
    ensures StatusNamed(StatusName(status)) == status
  {
    assert "ACTIVE"[0] == 'A' && "LOCAL"[0] == 'L' && "MANUAL"[0] == 'M' && "SELF_DETECT"[0] == 'S';
    assert "UP"[0] == 'U' && "DOWN"[0] == 'D';
    assert "HOST_STATUS_UP"[12] == 'U' && "HOST_STATUS_DOWN"[12] == 'D' && "HOST_STATUS_INIT"[12] == 'I';
  }

  // ---------------------------------------------------------------------------
  // Main results

  /** `r0` with what the text of `r` says about `reason`. */
  function Absorb(r0: HostStatRec, r: HostStatRec, reason: Reason): HostStatRec {
    r0.Put(reason, Mark(r0.reasons, Bit(reason), ReasonState(r.reasons, Bit(reason)) != 0),
           r.Marked(reason), r.DownTime(reason))
  }

  function AbsorbAll(r0: HostStatRec, r: HostStatRec, reasons: seq<Reason>): HostStatRec
    decreases |reasons|
  {
    if reasons == [] then r0 else AbsorbAll(Absorb(r0, r, reasons[0]), r, reasons[1..])
  }

  predicate InRange(r: HostStatRec, reason: Reason) {
    IsInt(r.Marked(reason)) && IsInt(r.DownTime(reason))
  }

  lemma ParseOwnField(r0: HostStatRec, r: HostStatRec, reason: Reason, bounded: bool)
    ensures ParseField(r0, Parts(r, reason), bounded) ==
      if bounded && !InRange(r, reason) then None else Some(Absorb(r0, r, reason))
  {
    NamesAreKnown(reason, ReasonState(r.reasons, Bit(reason)), r.status);
    AtoiShow(r.Marked(reason), bounded);
    AtoiShow(r.DownTime(reason), bounded);
  }

  predicate AllInRange(r: HostStatRec, reasons: seq<Reason>)
    decreases |reasons|
  {
    reasons == [] || (InRange(r, reasons[0]) && AllInRange(r, reasons[1..]))
  }

  lemma {:induction false} ParseOwnFields(r0: HostStatRec, r: HostStatRec, reasons: seq<Reason>, limit: nat, bounded: bool)
    requires forall i :: 0 <= i < |reasons| ==> |Field(r, reasons[i])| <= limit
    ensures ParseFields(r0, Fields(r, reasons), limit, bounded) ==
      if bounded && !AllInRange(r, reasons) then None else Some(AbsorbAll(r0, r, reasons))
    decreases |reasons|
  {
    if reasons != [] {
      PartsAreTidy(r, reasons[0]);
      TidyField(Parts(r, reasons[0]), limit);
      ParseOwnField(r0, r, reasons[0], bounded);
      assert Fields(r, reasons)[1..] == Fields(r, reasons[1..]);
      ParseOwnFields(Absorb(r0, r, reasons[0]), r, reasons[1..], limit, bounded);
    }
  }

  lemma OneBit(x: bv32, bit: bv32)
    requires bit == 1 || bit == 2 || bit == 4 || bit == 8
    ensures x & bit == 0 || x & bit == bit
  {
  }

  lemma AndDistributes(x: bv32, a: bv32, b: bv32)
    ensures x & (a | b) == (x & a) | (x & b)
    ensures a & b == 0 ==> (x & a) & b == 0
  {
  }

  /** Marking one more of the bits copies one more of them. */
  lemma MarkOne(reasons: bv32, marked: bv32, done: bv32, bit: bv32)
    requires bit == 1 || bit == 2 || bit == 4 || bit == 8
    requires done & bit == 0 && marked == reasons & done
    ensures Mark(marked, bit, ReasonState(reasons, bit) != 0) == reasons & (done | bit)
  {
    if ReasonState(reasons, bit) != 0 {
      StateIsBit(reasons, bit);
      MarkSet(reasons, done, bit);
    } else {
      MarkClear(reasons, done, bit);
    }
  }

  lemma StateIsBit(reasons: bv32, bit: bv32)
    requires bit == 1 || bit == 2 || bit == 4 || bit == 8
    requires ReasonState(reasons, bit) != 0
    ensures reasons & bit == bit
  {
    OneBit(reasons, bit);
  }

  lemma MarkSet(reasons: bv32, done: bv32, bit: bv32)
    requires reasons & bit == bit
    ensures Mark(reasons & done, bit, true) == reasons & (done | bit)
  {
  }

  lemma MarkClear(reasons: bv32, done: bv32, bit: bv32)
    requires ReasonState(reasons, bit) == 0 && done & bit == 0
    ensures Mark(reasons & done, bit, false) == reasons & (done | bit)
  {
    AndDistributes(reasons, done, bit);
  }

  lemma AbsorbedRecord(r: HostStatRec)
    ensures AbsorbAll(HostStatRec(r.status, 0, 0, 0, 0, 0, 0, 0, 0), r, REASONS) == r.(reasons := r.reasons & ALL)
  {
    var r0 := HostStatRec(r.status, 0, 0, 0, 0, 0, 0, 0, 0);
    var r1 := Absorb(r0, r, Active);
    assert r.reasons & 0 == 0 && 0 & 1 as bv32 == 0 && 0 | 1 as bv32 == 1;
    MarkOne(r.reasons, 0, 0, 1);
    var r2 := Absorb(r1, r, Local);
    assert 1 & 2 as bv32 == 0 && 1 | 2 as bv32 == 3;
    MarkOne(r.reasons, r1.reasons, 1, 2);
    var r3 := Absorb(r2, r, Manual);
    assert 3 & 4 as bv32 == 0 && 3 | 4 as bv32 == 7;
    MarkOne(r.reasons, r2.reasons, 3, 4);
    var r4 := Absorb(r3, r, SelfDetect);
    assert 7 & 8 as bv32 == 0 && 7 | 8 as bv32 == 15;
    MarkOne(r.reasons, r3.reasons, 7, 8);
    assert REASONS[1..] == [Local, Manual, SelfDetect] && REASONS[1..][1..] == [Manual, SelfDetect];
    assert [Manual, SelfDetect][1..] == [SelfDetect] && [SelfDetect][1..] == [];
    assert AbsorbAll(r0, r, REASONS) == AbsorbAll(r1, r, [Local, Manual, SelfDetect]);
    assert AbsorbAll(r2, r, [Manual, SelfDetect]) == r4;
  }

  lemma {:induction false} FieldsAt(r: HostStatRec, reasons: seq<Reason>)
    ensures |Fields(r, reasons)| == |reasons|
    ensures forall i :: 0 <= i < |reasons| ==> Fields(r, reasons)[i] == Field(r, reasons[i])
    decreases |reasons|
  {
    if reasons != [] {
      FieldsAt(r, reasons[1..]);
    }
  }

  /** Every field of the text fits the reader's line. */
  ghost predicate FitsLine(r: HostStatRec, limit: nat) {
    |StatusName(r.status)| <= limit && forall reason :: |Field(r, reason)| <= limit
  }

  lemma TextSplits(r: HostStatRec, limit: nat)
    requires FitsLine(r, limit)
    ensures GetLines(Text(r), ',', limit) == [StatusName(r.status)] + Fields(r, REASONS)
    ensures |Fields(r, REASONS)| == 4
  {
    var parts := [StatusName(r.status)] + Fields(r, REASONS);
    FieldsAt(r, REASONS);
    forall i | 0 <= i < |parts|
      ensures |parts[i]| <= limit && ',' !in parts[i]
    {
      if i == 0 {
        NamesAreTidy(Active, 0, r.status);
      } else {
        assert parts[i] == Field(r, REASONS[i - 1]);
        PartsAreTidy(r, REASONS[i - 1]);
        TidyField(Parts(r, REASONS[i - 1]), limit);
      }
    }
    SplitJoined(parts, ',', limit);
  }

  ghost predicate AllInts(r: HostStatRec) {
    forall reason :: InRange(r, reason)
  }

  /** The status field of the text. */
  function Spelling(status: Status): string {
    match status case Init => "HOST_STATUS_INIT" case Down => "HOST_STATUS_DOWN" case Up => "HOST_STATUS_UP"
  }

  function UpOrDown(down: bool): string {
    if down then "DOWN" else "UP"
  }

  lemma FieldSplits(r: HostStatRec, reason: Reason, limit: nat)
    requires FitsLine(r, limit)
    ensures GetLines(Field(r, reason), ':', limit) == Parts(r, reason)
  {
    assert |Field(r, reason)| <= limit;
    PartsAreTidy(r, reason);
    TidyField(Parts(r, reason), limit);
  }

  /** What a field has to say about a reason. */
  function Says(name: string, down: bool, marked: int): seq<string> {
    [name, UpOrDown(down), Show(marked)]
  }

  lemma PartsSay(r: HostStatRec)
    ensures Parts(r, Active) == Says("ACTIVE", r.reasons & 1 != 0, r.activeMarked) + [Show(r.activeDown)]
    ensures Parts(r, Local) == Says("LOCAL", r.reasons & 2 != 0, r.localMarked) + [Show(r.localDown)]
    ensures Parts(r, Manual) == Says("MANUAL", r.reasons & 4 != 0, r.manualMarked) + [Show(r.manualDown)]
    ensures Parts(r, SelfDetect) == Says("SELF_DETECT", r.reasons & 8 != 0, r.selfMarked)
  {
    StateIs(r.reasons, 1);
    StateIs(r.reasons, 2);
    StateIs(r.reasons, 4);
    StateIs(r.reasons, 8);
  }

  /** The text of a record, split at commas and then at colons: the status, and for each reason its name, whether
      its bit is set, when the host was marked down and, except for the last, for how long. */
  lemma TextSpells(r: HostStatRec)
    ensures
      var n := |Text(r)|;
      var f := GetLines(Text(r), ',', n);
      && |f| == 5 && f[0] == Spelling(r.status)
      && GetLines(f[1], ':', n) == Says("ACTIVE", r.reasons & 1 != 0, r.activeMarked) + [Show(r.activeDown)]
      && GetLines(f[2], ':', n) == Says("LOCAL", r.reasons & 2 != 0, r.localMarked) + [Show(r.localDown)]
      && GetLines(f[3], ':', n) == Says("MANUAL", r.reasons & 4 != 0, r.manualMarked) + [Show(r.manualDown)]
      && GetLines(f[4], ':', n) == Says("SELF_DETECT", r.reasons & 8 != 0, r.selfMarked)
  {
    var n := |Text(r)|;
    WholeTextFits(r);
    TextSplits(r, n);
    FieldsAt(r, REASONS);
    FieldSplits(r, Active, n);
    FieldSplits(r, Local, n);
    FieldSplits(r, Manual, n);
    FieldSplits(r, SelfDetect, n);
    PartsSay(r);
  }

  lemma StateIs(reasons: bv32, bit: bv32)
    ensures StateName(ReasonState(reasons, bit)) == UpOrDown(reasons & bit != 0)
  {
  }

  predicate IsCleared(before: bv32, after: bv32, bit: bv32) {
    after & bit == 0 && after & !bit == before & !bit
  }

  predicate IsSet(reasons: bv32, bit: bv32) {
    reasons & bit != 0
  }

  /** A field that says DOWN sets its reason's bit... */
  lemma MarkedDown(reasons: bv32, bit: bv32)
    ensures Mark(reasons, bit, true) & bit == bit
  {
  }

  /** ...and no other. */
  lemma MarkedOnly(reasons: bv32, bit: bv32)
    ensures Mark(reasons, bit, true) & !bit == reasons & !bit
  {
  }

  /** A field that says anything else clears it. */
  lemma MarkedUp(reasons: bv32, bit: bv32)
    requires bit in {1, 2, 4, 8}
    ensures IsCleared(reasons, Mark(reasons, bit, false), bit)
  {
    OneBit(reasons, bit);
    var flipped := reasons ^ bit;
    if Mark(reasons, bit, false) == flipped && IsSet(reasons, bit) {
      FlipAll(reasons, bit);
    } else {
      LeaveBit(reasons, bit);
    }
  }

  lemma FlipAll(reasons: bv32, bit: bv32)
    requires reasons & bit == bit
    ensures IsCleared(reasons, reasons ^ bit, bit)
  {
  }

  lemma LeaveBit(reasons: bv32, bit: bv32)
    requires !IsSet(reasons, bit)
    ensures IsCleared(reasons, Mark(reasons, bit, false), bit)
  {
  }

  /** Reading a record's own text back gives the record with only its four reason bits, unless a number
      does not fit an `int`. */
  lemma ParseText(r: HostStatRec, limit: nat, bounded: bool)
    requires FitsLine(r, limit)
    ensures Parse(Text(r), limit, bounded) ==
      if bounded && !AllInts(r) then None else Some(r.(reasons := r.reasons & ALL))
  {
    TextSplits(r, limit);
    NamesAreKnown(Active, 0, r.status);
    var fields := GetLines(Text(r), ',', limit);
    assert fields[1..] == Fields(r, REASONS);
    ParseOwnFields(HostStatRec(r.status, 0, 0, 0, 0, 0, 0, 0, 0), r, REASONS, limit, bounded);
    AbsorbedRecord(r);
    AllIntsByReason(r);
  }

  lemma AllIntsByReason(r: HostStatRec)
    ensures AllInts(r) <==> AllInRange(r, REASONS)
  {
    assert REASONS[1..] == [Local, Manual, SelfDetect] && [Local, Manual, SelfDetect][1..] == [Manual, SelfDetect];
    assert [Manual, SelfDetect][1..] == [SelfDetect] && [SelfDetect][1..] == [];
    assert AllInRange(r, [SelfDetect]) <==> InRange(r, SelfDetect);
    assert AllInRange(r, [Manual, SelfDetect]) <==> InRange(r, Manual) && InRange(r, SelfDetect);
    assert AllInRange(r, REASONS) <==> InRange(r, Active) && InRange(r, Local) && AllInRange(r, [Manual, SelfDetect]);
    if !AllInts(r) {
      var reason :| !InRange(r, reason);
      assert reason in {Active, Local, Manual, SelfDetect};
    }
  }

  /** The widths of the record's own fields: `time_t` and `unsigned int`. */
  ghost predicate Widths(r: HostStatRec) {
    forall reason ::
      -0x8000_0000_0000_0000 <= r.Marked(reason) < 0x8000_0000_0000_0000 && r.DownTime(reason) < 0x1_0000_0000
  }

  lemma OwnTextFits(r: HostStatRec)
    requires Widths(r)
    ensures FitsLine(r, 63)
  {
    forall reason
      ensures |Field(r, reason)| <= 63
    {
      ShowIsShort(r.Marked(reason));
      ShowIsShort(r.DownTime(reason));
      FieldLength(r, reason);
    }
  }

  lemma FieldLength(r: HostStatRec, reason: Reason)
    ensures |Field(r, reason)| <= 18 + |Show(r.Marked(reason))| + |Show(r.DownTime(reason))|
  {
    var p := Parts(r, reason);
    assert |p[0]| <= 11 && |p[1]| <= 4;
    assert JoinWith(':', p) == p[0] + [':'] + JoinWith(':', p[1..]);
    assert JoinWith(':', p[1..]) == p[1] + [':'] + JoinWith(':', p[1..][1..]);
    assert p[1..][1..] == p[2..];
    if !reason.SelfDetect? {
      assert p[2..] == [p[2], p[3]];
      assert [p[2], p[3]][1..] == [p[3]];
      assert JoinWith(':', [p[2], p[3]]) == p[2] + [':'] + p[3];
    } else {
      assert p[2..] == [p[2]];
    }
  }

  /** A record survives the persistent store if and only if it has no reason bit beyond the four and all
      its times fit an `int`; a time that does not has no defined value after reading. */
  lemma StoreRoundTrip(r: HostStatRec)
    requires Widths(r)
    ensures Parse(Text(r), 63, true) == Some(r) <==> AllInts(r) && r.reasons & ALL == r.reasons
    ensures Parse(Text(r), 63, true).None? <==> !AllInts(r)
  {
    OwnTextFits(r);
    ParseText(r, 63, true);
  }

  /** A time stamp of the year 2038 and later does not survive. */
  lemma LateTimeIsLost(r: HostStatRec)
    requires Widths(r) && r.manualMarked == 0x8000_0000
    ensures Parse(Text(r), 63, true).None?
  {
    StoreRoundTrip(r);
    assert !InRange(r, Manual);
  }

  lemma WholeTextFits(r: HostStatRec)
    ensures FitsLine(r, |Text(r)|)
  {
    var parts := [StatusName(r.status)] + Fields(r, REASONS);
    FieldsAt(r, REASONS);
    JoinedIsLonger(parts, ',', 0);
    forall reason: Reason
      ensures |Field(r, reason)| <= |Text(r)|
    {
      var i := if reason.Active? then 0 else if reason.Local? then 1 else if reason.Manual? then 2 else 3;
      assert REASONS[i] == reason && parts[i + 1] == Field(r, reason);
      JoinedIsLonger(parts, ',', i + 1);
    }
  }

  /** Records with the same text agree in everything but reason bits beyond the four, however large
      their numbers. */
  lemma TextIsInjective(a: HostStatRec, b: HostStatRec)
    requires Text(a) == Text(b)
    ensures a.(reasons := a.reasons & ALL) == b.(reasons := b.reasons & ALL)
  {
    WholeTextFits(a);
    WholeTextFits(b);
    ParseText(a, |Text(a)|, false);
    ParseText(b, |Text(b)|, false);
  }

  // ---------------------------------------------------------------------------
  // The serializer, which appends to a stream piece by piece

  lemma FieldIsConcat(r: HostStatRec, reason: Reason)
    ensures
      var p := Parts(r, reason);
      Field(r, reason) == p[0] + ":" + p[1] + ":" + p[2] + if reason.SelfDetect? then "" else ":" + p[3]
  {
    var p := Parts(r, reason);
    if reason.SelfDetect? {
      assert p[1..] == [p[1], p[2]] && [p[1], p[2]][1..] == [p[2]];
      assert JoinWith(':', [p[1], p[2]]) == p[1] + ":" + p[2];
    } else {
      assert p[1..] == [p[1], p[2], p[3]] && [p[1], p[2], p[3]][1..] == [p[2], p[3]] && [p[2], p[3]][1..] == [p[3]];
      assert JoinWith(':', [p[2], p[3]]) == p[2] + ":" + p[3];
      assert JoinWith(':', [p[1], p[2], p[3]]) == p[1] + ":" + p[2] + ":" + p[3];
    }
  }

  lemma TextIsConcat(r: HostStatRec)
    ensures Text(r) == StatusName(r.status) + ("," + Field(r, Active)) + ("," + Field(r, Local)) +
                       ("," + Field(r, Manual)) + ("," + Field(r, SelfDetect))
  {
    var s, a, l, m, d :=
      StatusName(r.status), Field(r, Active), Field(r, Local), Field(r, Manual), Field(r, SelfDetect);
    FieldsAt(r, REASONS);
    assert Fields(r, REASONS) == [a, l, m, d];
    assert [s] + [a, l, m, d] == [s, a, l, m, d];
    JoinFive(s, a, l, m, d);
  }

  lemma JoinFive(s: string, a: string, l: string, m: string, d: string)
    ensures JoinWith(',', [s, a, l, m, d]) == s + ("," + a) + ("," + l) + ("," + m) + ("," + d)
  {
    assert [s, a, l, m, d][1..] == [a, l, m, d] && [a, l, m, d][1..] == [l, m, d];
    assert [l, m, d][1..] == [m, d] && [m, d][1..] == [d];
    assert JoinWith(',', [m, d]) == m + ("," + d);
    assert JoinWith(',', [l, m, d]) == l + ("," + m) + ("," + d);
    assert JoinWith(',', [a, l, m, d]) == a + ("," + l) + ("," + m) + ("," + d);
  }

  method WriteField(os: string, r: HostStatRec, reason: Reason) returns (out: string)
    ensures out == os + ("," + Field(r, reason))
  {
    FieldIsConcat(r, reason);
    var piece := ReasonName(reason) + ":" + StateName(ReasonState(r.reasons, Bit(reason)));
    piece := piece + ":" + Show(r.Marked(reason));
    if !reason.SelfDetect? {
      piece := piece + (":" + Show(r.DownTime(reason)));
    }
    out := os + ("," + piece);
  }

  /** The stream gets the record's text. */
  method WriteTo(os: string, r: HostStatRec) returns (out: string)
    ensures out == os + Text(r)
  {
    TextIsConcat(r);
    out := os + StatusName(r.status);
    out := WriteField(out, r, Active);
    out := WriteField(out, r, Local);
    out := WriteField(out, r, Manual);
    out := WriteField(out, r, SelfDetect);
  }
}
