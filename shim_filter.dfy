/**
 * The OSC 52 input filter of src/shim.c: a byte buffer holding the
 * unprocessed input between start and end, grown, compacted and flushed
 * to the output queue in place, and the classifier that recognises the
 * control sequences around an OSC 52 clipboard write (OSC is C1 0x9D or
 * ESC ']', section 8.3.89 of ECMA-48; ST is C1 0x9C or ESC '\',
 * section 8.3.143; BEL is also accepted as a terminator).
 */
module ShimFilter {
  import opened ShimQueue

  const DEFAULT_CAPACITY: nat := 2048
  const MIN_CAPACITY: nat := 1024

  const ESC_CODE: bv8 := 0x1b
  const OSC_CODE: bv8 := 0x9d
  /** ']' after ESC. */
  const OSC_ESC: bv8 := 0x5d
  const ST_CODE: bv8 := 0x9c
  /** '\' after ESC. */
  const ST_ESC: bv8 := 0x5c
  const BEL_CODE: bv8 := 7

  /** The ASCII bytes of "52;", the selection letters and digits, and '?'. */
  const DIGIT_0: bv8 := 0x30
  const DIGIT_2: bv8 := 0x32
  const DIGIT_5: bv8 := 0x35
  const DIGIT_7: bv8 := 0x37
  const SEMICOLON: bv8 := 0x3b
  const QUESTION: bv8 := 0x3f
  const LETTER_C: bv8 := 0x63
  const LETTER_P: bv8 := 0x70
  const LETTER_Q: bv8 := 0x71
  const LETTER_S: bv8 := 0x73

  /** gsize arithmetic: values modulo 2^64. */
  const SIZE_MOD: int := 0x1_0000_0000_0000_0000

  function Max(a: nat, b: nat): nat
  {
    if a >= b then a else b
  }

  function Min(a: nat, b: nat): nat
  {
    if a <= b then a else b
  }

  /** The outcome of ensure_spare_capacity: its result and the new start, end and capacity, or the failure of its assert. */
  datatype Ensured = Ensured(ok: bool, start: nat, end: nat, capacity: nat) | AssertionFailure

  /**
   * ensure_spare_capacity as written, on start, end and capacity. When
   * the doubled capacity, clamped to maxCapacity + start, does not grow
   * the buffer, a request for one byte is granted one more byte: the test
   * `capacity < max_capacity + 1` compares the clamped value, so it is
   * always true.
   */
  function EnsureAsWritten(s: nat, e: nat, cap: nat, spare: nat, maxCap: nat): Ensured
    requires s <= e <= cap
  {
    if cap - e >= spare then Ensured(true, s, e, cap)
    else
      var size := e - s;
      var s1 := if s >= spare then 0 else s;
      var e1 := if s >= spare then size else e;
      if cap - e1 >= spare then Ensured(true, s1, e1, cap)
      else
        var c0 := Min(cap * 2, maxCap + s1);
        if c0 <= cap && !(spare == 1 && c0 < maxCap + s1 + 1) then Ensured(false, s1, e1, cap)
        else
          var c := if c0 <= cap then c0 + 1 else c0;
          if c < cap then AssertionFailure
          else if c > cap then Ensured(true, 0, size, c)
          else Ensured(true, s1, e1, cap)
  }

  /**
   * ensure_spare_capacity as evidently intended: the one-byte allowance
   * is granted only when that byte grows the buffer.
   */
  function EnsureCorrected(s: nat, e: nat, cap: nat, spare: nat, maxCap: nat): Ensured
    requires s <= e <= cap
  {
    if cap - e >= spare then Ensured(true, s, e, cap)
    else
      var size := e - s;
      var s1 := if s >= spare then 0 else s;
      var e1 := if s >= spare then size else e;
      if cap - e1 >= spare then Ensured(true, s1, e1, cap)
      else
        var c0 := Min(cap * 2, maxCap + s1);
        if c0 <= cap && !(spare == 1 && c0 + 1 > cap) then Ensured(false, s1, e1, cap)
        else
          var c := if c0 <= cap then c0 + 1 else c0;
          Ensured(true, 0, size, c)
  }

  /**
   * As written, a one-byte request on a buffer grown past maxCapacity
   * while start was 2 fails the assert: the allowance yields
   * maxCapacity + 1, below the current capacity.
   */
  lemma EnsureAsWrittenAsserts(maxCap: nat)
    ensures EnsureAsWritten(0, maxCap + 2, maxCap + 2, 1, maxCap) == AssertionFailure
  {
  }

  /**
   * As written, a one-byte request on a full buffer of maxCapacity + 1
   * bytes reports success and leaves no free byte.
   */
  lemma EnsureAsWrittenNoRoom(maxCap: nat)
    ensures var r := EnsureAsWritten(0, maxCap + 1, maxCap + 1, 1, maxCap);
      r.Ensured? && r.ok && r.capacity - r.end == 0
  {
  }

  /**
   * The corrected function never fails its assert, keeps the buffered
   * length, never shrinks the buffer, leaves everything alone when there
   * is room already, and succeeds only with at least one free byte;
   * it fails only when the capacity is already at maxCapacity + start
   * (one more for a one-byte request).
   */
  lemma EnsureCorrectedSpec(s: nat, e: nat, cap: nat, spare: nat, maxCap: nat)
    requires s <= e <= cap && cap >= 1
    ensures var r := EnsureCorrected(s, e, cap, spare, maxCap);
      r.Ensured? && r.start <= r.end <= r.capacity && r.end - r.start == e - s && r.capacity >= cap
      && (cap - e >= spare ==> r == Ensured(true, s, e, cap))
      && (r.ok && spare >= 1 ==> r.capacity - r.end >= 1)
      && (!r.ok ==> r.capacity == cap && cap >= maxCap + r.start + (if spare == 1 then 1 else 0))
  {
  }

  /**
   * The classification of the byte at an offset (EscStatus): an ESC or
   * OSC with too little data to tell, other ESC sequences, OSC that is or
   * is not an OSC 52 write, ST, BEL, or no escape at all.
   */
  datatype EscStatus = IsUnknownEsc | IsOtherEsc | IsUnknownOsc | IsOtherOsc | IsOsc52 | IsST | IsBel | IsNotEsc

  /** The selection characters other than 'c' and 'p' that buf_contains_52 lets through: strchr on "qs01234567" also finds its terminating NUL. */
  predicate OtherSelectionChar(c: bv8)
  {
    c == LETTER_Q || c == LETTER_S || (DIGIT_0 <= c <= DIGIT_7) || c == 0
  }

  /**
   * The scan of buf_contains_52 after "52;", from index i with the c and
   * p flags: a ';' after at least one of c and p ends the selection and
   * the byte after it decides (a '?' is a read request); a repeated c or
   * p, any other byte, a ';' too early, or the end of the data means it
   * is not an OSC 52 write.
   */
  function Selection(d: seq<bv8>, i: nat, haveC: bool, haveP: bool): EscStatus
    decreases |d| - i
  {
    if i >= |d| then IsOtherOsc
    else
      var c := d[i];
      if c == SEMICOLON then
        if !(haveC || haveP) then IsOtherOsc
        else if i + 1 >= |d| then IsOtherOsc
        else if d[i + 1] == QUESTION then IsOtherOsc
        else IsOsc52
      else if c == LETTER_C && !haveC then Selection(d, i + 1, true, haveP)
      else if c == LETTER_P && !haveP then Selection(d, i + 1, haveC, true)
      else if OtherSelectionChar(c) then Selection(d, i + 1, haveC, haveP)
      else IsOtherOsc
  }

  /**
   * buf_contains_52 with its bounds as evidently intended: the tests of
   * '5', '2' and ';' are made when o + 1, o + 2 and o + 3 bytes are
   * buffered, as the guards read without wrap-around; with fewer than
   * four bytes from o the answer is unknown.
   */
  function Contains52(d: seq<bv8>, o: nat): EscStatus
    requires o <= |d|
  {
    if o + 1 < |d| && d[o] != DIGIT_5 then IsOtherOsc
    else if o + 2 < |d| && d[o + 1] != DIGIT_2 then IsOtherOsc
    else if o + 3 < |d| && d[o + 2] != SEMICOLON then IsOtherOsc
    else if o + 3 >= |d| then IsUnknownOsc
    else Selection(d, o + 3, false, false)
  }

  /** gsize subtraction: wraps modulo 2^64 below zero. */
  function SizeSub(a: nat, b: nat): nat
  {
    (a - b) % SIZE_MOD
  }

  /**
   * buf_contains_52 as written, as far as its first three tests: the
   * guards `offset < buflen - k` are gsize arithmetic, so with fewer than
   * k bytes buffered they wrap and let the byte at offset + k - 1 be read
   * even when it lies outside the data. None is such a read.
   */
  function Contains52AsWritten(d: seq<bv8>, o: nat): Option52
    requires o <= |d| < SIZE_MOD
  {
    if o < SizeSub(|d|, 1) && (o >= |d| || d[o] != DIGIT_5) then
      (if o >= |d| then OutsideData else Status(IsOtherOsc))
    else if o < SizeSub(|d|, 2) && (o + 1 >= |d| || d[o + 1] != DIGIT_2) then
      (if o + 1 >= |d| then OutsideData else Status(IsOtherOsc))
    else if o < SizeSub(|d|, 3) && (o + 2 >= |d| || d[o + 2] != SEMICOLON) then
      (if o + 2 >= |d| then OutsideData else Status(IsOtherOsc))
    else if o + 3 >= |d| then Status(IsUnknownOsc)
    else Status(Selection(d, o + 3, false, false))
  }

  /** The answer of the as-written classifier, or a read outside the buffered data. */
  datatype Option52 = Status(status: EscStatus) | OutsideData

  /** A lone OSC byte as the whole buffered data: the as-written test of '2' reads two bytes past it. */
  lemma Contains52AsWrittenReadsOutside()
    ensures Contains52AsWritten([OSC_CODE], 1) == OutsideData
  {
  }

  /** With at least three bytes buffered nothing wraps, and the as-written classifier is the corrected one. */
  lemma Contains52AsWrittenAgrees(d: seq<bv8>, o: nat)
    requires o <= |d| && 3 <= |d| < SIZE_MOD
    ensures Contains52AsWritten(d, o) == Status(Contains52(d, o))
  {
  }

  /** Bytes that may stand in an OSC 52 selection: 'c', 'p' and the others let through. */
  predicate SelectionByte(c: bv8)
  {
    c == LETTER_C || c == LETTER_P || OtherSelectionChar(c)
  }

  /** How many times b occurs in s. */
  function Count(s: seq<bv8>, b: bv8): nat
  {
    if s == [] then 0 else (if s[0] == b then 1 else 0) + Count(s[1..], b)
  }

  /**
   * An independent reading of a valid write selection: only selection
   * bytes, at most one 'c' and at most one 'p' (counting those already
   * seen), and at least one of them.
   */
  predicate ValidSelection(s: seq<bv8>, haveC: bool, haveP: bool)
  {
    (forall j :: 0 <= j < |s| ==> SelectionByte(s[j]))
    && Count(s, LETTER_C) + (if haveC then 1 else 0) <= 1
    && Count(s, LETTER_P) + (if haveP then 1 else 0) <= 1
    && (haveC || haveP || LETTER_C in s || LETTER_P in s)
  }

  /** An OSC 52 write from i: a valid selection up to a ';' at k, then a byte that is not '?'. */
  predicate WriteAt(d: seq<bv8>, i: nat, haveC: bool, haveP: bool, k: nat)
  {
    i <= k && k + 1 < |d| && d[k] == SEMICOLON && ValidSelection(d[i..k], haveC, haveP) && d[k + 1] != QUESTION
  }

  /** Some write selection starts at i. */
  ghost predicate WriteFrom(d: seq<bv8>, i: nat, haveC: bool, haveP: bool)
  {
    exists k: nat :: WriteAt(d, i, haveC, haveP, k)
  }

  /** The scan answers IsOsc52 exactly when a write selection follows, in the independent reading. */
  lemma {:induction false} SelectionIsWrite(d: seq<bv8>, i: nat, haveC: bool, haveP: bool)
    requires i <= |d|
    ensures Selection(d, i, haveC, haveP) == IsOsc52 <==> WriteFrom(d, i, haveC, haveP)
    decreases |d| - i
  {
    if i < |d| {
      var c := d[i];
      if c == SEMICOLON {
        SelectionAtSemicolon(d, i, haveC, haveP);
      } else if SelectionByte(c) && !(c == LETTER_C && haveC) && !(c == LETTER_P && haveP) {
        SelectionIsWrite(d, i + 1, haveC || c == LETTER_C, haveP || c == LETTER_P);
        SelectionAtByte(d, i, haveC, haveP);
      } else {
        SelectionAtBadByte(d, i, haveC, haveP);
      }
    }
  }

  /** The inductive step of SelectionIsWrite at a selection byte that repeats neither flag. */
  lemma SelectionAtByte(d: seq<bv8>, i: nat, haveC: bool, haveP: bool)
    requires i < |d| && d[i] != SEMICOLON
    requires SelectionByte(d[i]) && !(d[i] == LETTER_C && haveC) && !(d[i] == LETTER_P && haveP)
    requires Selection(d, i + 1, haveC || d[i] == LETTER_C, haveP || d[i] == LETTER_P) == IsOsc52
      <==> WriteFrom(d, i + 1, haveC || d[i] == LETTER_C, haveP || d[i] == LETTER_P)
    ensures Selection(d, i, haveC, haveP) == IsOsc52 <==> WriteFrom(d, i, haveC, haveP)
  {
    var hc := haveC || d[i] == LETTER_C;
    var hp := haveP || d[i] == LETTER_P;
    assert Selection(d, i, haveC, haveP) == Selection(d, i + 1, hc, hp);
    if Selection(d, i, haveC, haveP) == IsOsc52 {
      var k: nat :| WriteAt(d, i + 1, hc, hp, k);
      WriteAtStep(d, i, k, haveC, haveP);
      assert WriteAt(d, i, haveC, haveP, k);
    }
    if exists k: nat :: WriteAt(d, i, haveC, haveP, k) {
      var k: nat :| WriteAt(d, i, haveC, haveP, k);
      WriteAtStep(d, i, k, haveC, haveP);
      assert WriteAt(d, i + 1, hc, hp, k);
    }
  }

  /** At a byte the scan rejects there is neither an OSC 52 answer nor a write selection. */
  lemma SelectionAtBadByte(d: seq<bv8>, i: nat, haveC: bool, haveP: bool)
    requires i < |d| && d[i] != SEMICOLON
    requires !(SelectionByte(d[i]) && !(d[i] == LETTER_C && haveC) && !(d[i] == LETTER_P && haveP))
    ensures Selection(d, i, haveC, haveP) == IsOtherOsc
    ensures forall k: nat :: !WriteAt(d, i, haveC, haveP, k)
  {
    forall k: nat | i < k <= |d|
      ensures !ValidSelection(d[i..k], haveC, haveP)
    {
      assert d[i..k] == [d[i]] + d[i + 1..k];
      ValidSelectionConsBad(d[i], d[i + 1..k], haveC, haveP);
    }
  }

  /** At a ';' the selection ends there or nowhere: an empty selection is valid exactly when c or p came before. */
  lemma SelectionAtSemicolon(d: seq<bv8>, i: nat, haveC: bool, haveP: bool)
    requires i < |d| && d[i] == SEMICOLON
    ensures Selection(d, i, haveC, haveP) == IsOsc52 <==> WriteFrom(d, i, haveC, haveP)
  {
    assert d[i..i] == [];
    if Selection(d, i, haveC, haveP) == IsOsc52 {
      assert WriteAt(d, i, haveC, haveP, i);
    }
  }

  /** A selection from i that ends at k > i is one from i + 1 with d[i] moved into the flags. */
  lemma WriteAtStep(d: seq<bv8>, i: nat, k: nat, haveC: bool, haveP: bool)
    requires i < |d| && SelectionByte(d[i]) && !(d[i] == LETTER_C && haveC) && !(d[i] == LETTER_P && haveP)
    ensures WriteAt(d, i, haveC, haveP, k) <==> WriteAt(d, i + 1, haveC || d[i] == LETTER_C, haveP || d[i] == LETTER_P, k)
  {
    if i + 1 <= k <= |d| {
      assert d[i..k] == [d[i]] + d[i + 1..k];
      ValidSelectionCons(d[i], d[i + 1..k], haveC, haveP);
    }
    if k == i && k < |d| {
      assert d[i] != SEMICOLON;
    }
  }

  /** A leading selection byte that repeats neither flag moves into the flags. */
  lemma ValidSelectionCons(x: bv8, t: seq<bv8>, haveC: bool, haveP: bool)
    requires SelectionByte(x) && !(x == LETTER_C && haveC) && !(x == LETTER_P && haveP)
    ensures ValidSelection([x] + t, haveC, haveP)
      <==> ValidSelection(t, haveC || x == LETTER_C, haveP || x == LETTER_P)
  {
    var s := [x] + t;
    CountCons(x, t);
    assert (forall j :: 0 <= j < |s| ==> SelectionByte(s[j])) <==> (forall j :: 0 <= j < |t| ==> SelectionByte(t[j])) by {
      assert s[0] == x;
      assert forall j :: 0 <= j < |t| ==> s[j + 1] == t[j];
      assert forall j :: 1 <= j < |s| ==> s[j] == t[j - 1];
    }
    assert (LETTER_C in s) <==> x == LETTER_C || LETTER_C in t;
    assert (LETTER_P in s) <==> x == LETTER_P || LETTER_P in t;
  }

  /** The count of the flag letters in [x] + t. */
  lemma CountCons(x: bv8, t: seq<bv8>)
    ensures Count([x] + t, LETTER_C) == Count(t, LETTER_C) + (if x == LETTER_C then 1 else 0)
    ensures Count([x] + t, LETTER_P) == Count(t, LETTER_P) + (if x == LETTER_P then 1 else 0)
  {
    assert ([x] + t)[1..] == t;
  }

  /** A leading byte that is no selection byte, or repeats a flag, spoils the selection. */
  lemma ValidSelectionConsBad(x: bv8, t: seq<bv8>, haveC: bool, haveP: bool)
    requires !(SelectionByte(x) && !(x == LETTER_C && haveC) && !(x == LETTER_P && haveP))
    ensures !ValidSelection([x] + t, haveC, haveP)
  {
    var s := [x] + t;
    assert s[0] == x;
    CountCons(x, t);
  }

  /**
   * The classification at o (o below the data's length), as
   * get_esc_status_at_offset makes it; with osc52 an OSC introducer is
   * examined further by buf_contains_52.
   */
  function EscStatusAt(d: seq<bv8>, o: nat, osc52: bool): EscStatus
    requires o < |d|
  {
    var c := d[o];
    if c == OSC_CODE then (if osc52 then Contains52(d, o + 1) else IsUnknownOsc)
    else if c == ESC_CODE then
      if o + 1 >= |d| then IsUnknownEsc
      else if d[o + 1] == OSC_ESC then (if osc52 then Contains52(d, o + 2) else IsUnknownOsc)
      else if d[o + 1] == ST_ESC then IsST
      else IsOtherEsc
    else if c == BEL_CODE then IsBel
    else if c == ST_CODE then IsST
    else IsNotEsc
  }

  /** Terminators: ST is 0x9C or ESC '\', and BEL is itself, whatever osc52 is. */
  lemma EscStatusTerminators(d: seq<bv8>, o: nat, osc52: bool)
    requires o < |d|
    ensures EscStatusAt(d, o, osc52) == IsST
      <==> d[o] == ST_CODE || (d[o] == ESC_CODE && o + 1 < |d| && d[o + 1] == ST_ESC)
    ensures EscStatusAt(d, o, osc52) == IsBel <==> d[o] == BEL_CODE
  {
    if d[o] == OSC_CODE || (d[o] == ESC_CODE && o + 1 < |d| && d[o + 1] == OSC_ESC) {
      if osc52 {
        var i := if d[o] == OSC_CODE then o + 1 else o + 2;
        if i + 3 < |d| {
          SelectionNeverTerminator(d, i + 3, false, false);
        }
      }
    }
  }

  /** The selection scan answers only IsOtherOsc or IsOsc52. */
  lemma {:induction false} SelectionNeverTerminator(d: seq<bv8>, i: nat, haveC: bool, haveP: bool)
    ensures Selection(d, i, haveC, haveP) == IsOtherOsc || Selection(d, i, haveC, haveP) == IsOsc52
    decreases |d| - i
  {
    if i < |d| && d[i] != SEMICOLON {
      SelectionNeverTerminator(d, i + 1, haveC || d[i] == LETTER_C, haveP || d[i] == LETTER_P);
    }
  }

  /** An OSC introducer at o: the C1 byte 0x9D, or ESC ']'. */
  predicate OscIntroducerAt(d: seq<bv8>, o: nat)
    requires o < |d|
  {
    d[o] == OSC_CODE || (d[o] == ESC_CODE && o + 1 < |d| && d[o + 1] == OSC_ESC)
  }

  /** Where the OSC parameters start after the introducer at o. */
  function OscParamsStart(d: seq<bv8>, o: nat): nat
    requires o < |d|
  {
    if d[o] == OSC_CODE then o + 1 else o + 2
  }

  /**
   * With osc52, the byte at o starts an OSC 52 write exactly when it is an
   * OSC introducer followed by "52;" and a write selection.
   */
  lemma EscStatusOsc52(d: seq<bv8>, o: nat)
    requires o < |d|
    ensures EscStatusAt(d, o, true) == IsOsc52 <==>
      OscIntroducerAt(d, o)
      && var i := OscParamsStart(d, o);
      i + 3 <= |d| && d[i..i + 3] == [DIGIT_5, DIGIT_2, SEMICOLON]
      && WriteFrom(d, i + 3, false, false)
  {
    if OscIntroducerAt(d, o) {
      var i := OscParamsStart(d, o);
      if i + 3 <= |d| {
        SelectionIsWrite(d, i + 3, false, false);
        if d[i..i + 3] == [DIGIT_5, DIGIT_2, SEMICOLON] {
          assert d[i] == d[i..i + 3][0] && d[i + 1] == d[i..i + 3][1] && d[i + 2] == d[i..i + 3][2];
        }
        if d[i] == DIGIT_5 && d[i + 1] == DIGIT_2 && d[i + 2] == SEMICOLON {
          assert d[i..i + 3] == [DIGIT_5, DIGIT_2, SEMICOLON];
        }
        if i + 3 == |d| {
          var j := i + 3;
          forall k: nat | WriteAt(d, j, false, false, k)
            ensures false
          {
          }
        }
      }
    }
  }

  /** How many bytes discard_esc_sequence drops: through offset, and the byte after an ESC when there is one. */
  function DiscardLength(d: seq<bv8>, offset: nat): (n: nat)
    requires offset < |d|
    ensures offset < n <= |d|
  {
    if d[offset] == ESC_CODE && offset + 1 < |d| then offset + 2 else offset + 1
  }

  /** The payload queue_osc52_message sends: the data after "ESC ]52;" or "OSC 52;" up to len, then a NUL. */
  function Osc52Payload(d: seq<bv8>, len: nat): seq<bv8>
    requires 1 <= |d| && (if d[0] == ESC_CODE then 5 else 4) <= len <= |d|
  {
    var prefix := if d[0] == ESC_CODE then 5 else 4;
    d[prefix..len] + [0]
  }

  /** The payload of an OSC 52 write introduced by ESC ']' is its text after "52;" up to the terminator, NUL-terminated. */
  lemma Osc52PayloadOfEsc(body: seq<bv8>, rest: seq<bv8>)
    ensures var d := [ESC_CODE, OSC_ESC, DIGIT_5, DIGIT_2, SEMICOLON] + body + rest;
      Osc52Payload(d, 5 + |body|) == body + [0]
  {
    var d := [ESC_CODE, OSC_ESC, DIGIT_5, DIGIT_2, SEMICOLON] + body + rest;
    assert d[5..5 + |body|] == body;
  }

  /** The same for the 8-bit introducer 0x9D. */
  lemma Osc52PayloadOfOsc(body: seq<bv8>, rest: seq<bv8>)
    ensures var d := [OSC_CODE, DIGIT_5, DIGIT_2, SEMICOLON] + body + rest;
      Osc52Payload(d, 4 + |body|) == body + [0]
  {
    var d := [OSC_CODE, DIGIT_5, DIGIT_2, SEMICOLON] + body + rest;
    assert d[4..4 + |body|] == body;
  }

  /** memmove(a, a + from, n) with from >= 0: the n bytes from `from` move to the front. */
  method MoveDown(a: array<bv8>, from: nat, n: nat)
    requires from + n <= a.Length
    modifies a
    ensures a[..n] == old(a[from..from + n])
  {
    ghost var c := a[from..from + n];
    var i := 0;
    while i < n
      invariant 0 <= i <= n
      invariant forall k :: 0 <= k < i ==> a[k] == c[k]
      invariant forall k :: i <= k < n ==> a[from + k] == c[k]
    {
      a[i] := a[from + i];
      i := i + 1;
    }
    assert a[..n] == c;
  }

  /** g_new and memcpy: a fresh array of the given capacity whose first n bytes are a's from `from`. */
  method CopyOut(a: array<bv8>, from: nat, n: nat, capacity: nat) returns (b: array<bv8>)
    requires from + n <= a.Length && n <= capacity
    ensures fresh(b) && b.Length == capacity && b[..n] == a[from..from + n]
  {
    b := new bv8[capacity];
    var i := 0;
    while i < n
      invariant 0 <= i <= n
      invariant b[..i] == a[from..from + i]
    {
      b[i] := a[from + i];
      i := i + 1;
    }
  }

  /** The filter's input buffer (Osc52FilterContext) and its two queues. */
  class Osc52Filter {
    var buf: array<bv8>
    var start: nat
    var end: nat
    var capacity: nat
    /** MAX_CAPACITY, the configured OSC52_SIZE_LIMIT. */
    const maxCapacity: nat
    const outputQueue: OutputQueue
    /** The queue of clipboard messages for the parent, possibly shared with another filter. */
    const ptpQueue: OutputQueue

    ghost predicate Valid()
      reads this
    {
      buf.Length == capacity && start <= end <= capacity && capacity >= DEFAULT_CAPACITY
    }

    /** The unprocessed input, buf[start..end]. */
    function Contents(): seq<bv8>
      requires Valid()
      reads this, buf
    {
      buf[start..end]
    }

    /** osc52_filter_context_new: an empty buffer of DEFAULT_CAPACITY bytes and an empty output queue. */
    constructor (maxCap: nat, ptp: OutputQueue)
      ensures Valid() && start == 0 && end == 0 && capacity == DEFAULT_CAPACITY
      ensures maxCapacity == maxCap && ptpQueue == ptp && fresh(outputQueue)
      ensures outputQueue.Valid() && outputQueue.items == [] && outputQueue.lastResult == 1
    {
      buf := new bv8[DEFAULT_CAPACITY];
      start := 0;
      end := 0;
      capacity := DEFAULT_CAPACITY;
      maxCapacity := maxCap;
      outputQueue := new OutputQueue.Init();
      ptpQueue := ptp;
    }

    /**
     * ensure_spare_capacity, with the one-byte allowance as evidently
     * intended: the buffered bytes are kept, moved to the front when
     * that frees enough room, or copied into a larger buffer; start, end,
     * capacity and the result are EnsureCorrected's.
     */
    method EnsureSpareCapacity(spare: nat) returns (ok: bool)
      requires Valid()
      modifies this, buf
      ensures Valid() && Contents() == old(Contents())
      ensures Ensured(ok, start, end, capacity) == EnsureCorrected(old(start), old(end), old(capacity), spare, maxCapacity)
      ensures capacity == old(capacity) ==> buf == old(buf)
      ensures capacity != old(capacity) ==> fresh(buf)
    {
      ghost var want := EnsureCorrected(start, end, capacity, spare, maxCapacity);
      if capacity - end >= spare {
        return true;
      }
      if start >= spare {
        Compact();
      }
      assert want == EnsureCorrected(old(start), old(end), capacity, spare, maxCapacity);
      if capacity - end >= spare {
        return true;
      }
      var c := Min(capacity * 2, maxCapacity + start);
      if c <= capacity {
        if spare == 1 && c + 1 > capacity {
          c := c + 1;
        } else {
          assert want == Ensured(false, start, end, capacity);
          return false;
        }
      }
      assert want == Ensured(true, 0, end - start, c);
      Grow(c);
      return true;
    }

    /** The memmove step of ensure_spare_capacity: the buffered bytes move to the front of buf. */
    method Compact()
      requires Valid()
      modifies this`start, this`end, buf
      ensures Valid() && Contents() == old(Contents())
      ensures start == 0 && end == old(end) - old(start)
    {
      var oldSize := end - start;
      if oldSize > 0 {
        MoveDown(buf, start, oldSize);
      }
      start := 0;
      end := oldSize;
    }

    /** The g_new and memcpy step of ensure_spare_capacity: the buffered bytes move to the front of a new buffer of c bytes. */
    method Grow(c: nat)
      requires Valid() && c > capacity
      modifies this`buf, this`start, this`end, this`capacity
      ensures Valid() && Contents() == old(Contents()) && fresh(buf)
      ensures start == 0 && end == old(end) - old(start) && capacity == c
    {
      var oldSize := end - start;
      var newBuf := CopyOut(buf, start, oldSize, c);
      buf := newBuf;
      start := 0;
      end := oldSize;
      capacity := c;
    }

    /**
     * The first half of send_data_to_output_queue: an item holding the
     * first nwrite buffered bytes, which leave the buffer. They are copied
     * out when fewer than those left behind; otherwise the item keeps the
     * old buffer and the rest moves to a new one of at least
     * DEFAULT_CAPACITY bytes.
     */
    method TakeFront(nwrite: nat) returns (item: OutputItem)
      requires Valid() && 0 < nwrite <= end - start
      modifies this
      ensures Valid() && fresh(item) && item.next == null
      ensures item.data == old(Contents())[..nwrite] && Contents() == old(Contents())[nwrite..]
      ensures nwrite < old(end - start) - nwrite ==>
        buf == old(buf) && start == old(start) + nwrite && end == old(end) && capacity == old(capacity)
      ensures nwrite >= old(end - start) - nwrite ==>
        fresh(buf) && start == 0 && end == old(end - start) - nwrite
        && capacity == Max(old(end - start) - nwrite, DEFAULT_CAPACITY)
    {
      var surplus := end - start - nwrite;
      item := new OutputItem(buf[start..start + nwrite]);
      if nwrite < surplus {
        start := start + nwrite;
      } else {
        var c := Max(surplus, DEFAULT_CAPACITY);
        var newBuf := CopyOut(buf, start + nwrite, surplus, c);
        buf := newBuf;
        capacity := c;
        start := 0;
        end := surplus;
      }
    }

    /**
     * send_data_to_output_queue: the first nwrite buffered bytes go to the
     * output queue as one item (dropped, yet still taken from the buffer,
     * when the last write failed), as TakeFront describes; nwrite 0
     * discards the whole buffer and shrinks it back to DEFAULT_CAPACITY.
     * After a queued write start is never 0 with nothing left, so the
     * source's second reset never fires.
     */
    method SendDataToOutputQueue(nwrite: nat) returns (r: int)
      requires Valid() && outputQueue.Valid() && nwrite <= end - start
      modifies this, outputQueue, outputQueue.tail
      ensures Valid() && outputQueue.Valid()
      ensures r == (if nwrite == 0 then 0 else old(outputQueue.lastResult))
      ensures nwrite == 0 ==>
        start == 0 && end == 0 && outputQueue.items == old(outputQueue.items)
        && capacity == (if old(capacity) > DEFAULT_CAPACITY then DEFAULT_CAPACITY else old(capacity))
      ensures nwrite > 0 ==> Contents() == old(Contents())[nwrite..]
      ensures nwrite > 0 && r > 0 ==> Payloads(outputQueue.items) == old(Payloads(outputQueue.items)) + [old(Contents())[..nwrite]]
      ensures nwrite > 0 && r <= 0 ==> outputQueue.items == old(outputQueue.items)
      ensures nwrite > 0 && nwrite < old(end - start) - nwrite ==>
        buf == old(buf) && start == old(start) + nwrite && end == old(end) && capacity == old(capacity)
      ensures nwrite > 0 && nwrite >= old(end - start) - nwrite ==>
        fresh(buf) && start == 0 && end == old(end - start) - nwrite
        && capacity == Max(old(end - start) - nwrite, DEFAULT_CAPACITY)
    {
      var n: int := nwrite;
      if nwrite > 0 {
        var item := TakeFront(nwrite);
        n := outputQueue.QueueItemForWriting(item);
        PayloadsAppend(old(outputQueue.items), item);
        if n <= 0 {
          return n;
        }
      }
      if n == 0 || (start == end && start != 0) {
        start := 0;
        end := 0;
        if capacity > DEFAULT_CAPACITY {
          buf := new bv8[DEFAULT_CAPACITY];
          capacity := DEFAULT_CAPACITY;
        }
      }
      return n;
    }

    /**
     * discard_esc_sequence: the data up to and including offset is
     * dropped, and the byte after it as well when offset holds an ESC
     * that is not the last byte.
     */
    method DiscardEscSequence(offset: nat)
      requires Valid() && offset < end - start
      modifies this
      ensures Valid() && buf == old(buf) && end == old(end) && capacity == old(capacity)
      ensures start == old(start) + DiscardLength(old(Contents()), offset)
      ensures Contents() == old(Contents())[DiscardLength(old(Contents()), offset)..]
    {
      var skip := offset;
      if buf[start + offset] == ESC_CODE {
        if offset + 1 + start >= end {
        } else {
          skip := skip + 1;
        }
      }
      start := start + skip + 1;
    }

    /**
     * queue_osc52_message: the message between the introducer and "52;"
     * and offset len, NUL-terminated, goes to the clipboard queue (or is
     * dropped after a failed write).
     */
    method QueueOsc52Message(len: nat)
      requires Valid() && ptpQueue.Valid() && start < end
      requires (if buf[start] == ESC_CODE then 5 else 4) <= len <= end - start
      modifies ptpQueue, ptpQueue.tail
      ensures ptpQueue.Valid()
      ensures old(ptpQueue.lastResult) > 0 ==>
        Payloads(ptpQueue.items) == old(Payloads(ptpQueue.items)) + [Osc52Payload(Contents(), len)]
      ensures old(ptpQueue.lastResult) <= 0 ==> ptpQueue.items == old(ptpQueue.items)
    {
      var payload := MessageBytes(len);
      var item := new OutputItem(payload);
      var r := ptpQueue.QueueItemForWriting(item);
      PayloadsAppend(old(ptpQueue.items), item);
    }

    /** The bytes queue_osc52_message copies: from after "52;" up to offset len, then a NUL. */
    method MessageBytes(len: nat) returns (payload: seq<bv8>)
      requires Valid() && start < end
      requires (if buf[start] == ESC_CODE then 5 else 4) <= len <= end - start
      ensures payload == Osc52Payload(Contents(), len)
    {
      var offset := if buf[start] == ESC_CODE then 5 else 4;
      assert Contents()[offset..len] == buf[start + offset..start + len] by {
        forall j | 0 <= j < len - offset
          ensures Contents()[offset..len][j] == buf[start + offset + j]
        {
        }
      }
      payload := buf[start + offset..start + len] + [0];
    }

    /**
     * buf_contains_52 with the bounds of each test as evidently intended:
     * "52;" and then the selection scan with the c, p and ';' flags.
     */
    method BufContains52(offset: nat) returns (r: EscStatus)
      requires Valid() && offset <= end - start
      ensures r == Contains52(Contents(), offset)
    {
      var buflen := end - start;
      if offset + 1 < buflen && buf[start + offset] != DIGIT_5 {
        return IsOtherOsc;
      }
      if offset + 2 < buflen && buf[start + offset + 1] != DIGIT_2 {
        return IsOtherOsc;
      }
      if offset + 3 < buflen && buf[start + offset + 2] != SEMICOLON {
        return IsOtherOsc;
      }
      if offset + 3 >= buflen {
        return IsUnknownOsc;
      }
      ghost var d := Contents();
      var haveC := false;
      var haveP := false;
      var haveSemi := false;
      var i := offset + 3;
      while i < buflen
        invariant offset + 3 <= i <= buflen
        invariant !haveSemi ==> Selection(d, offset + 3, false, false) == Selection(d, i, haveC, haveP)
        invariant haveSemi ==>
          i >= 1 && d[i - 1] == SEMICOLON && (haveC || haveP)
          && Selection(d, offset + 3, false, false) == Selection(d, i - 1, haveC, haveP)
      {
        var c := buf[start + i];
        assert c == d[i];
        if haveSemi {
          return if c == QUESTION then IsOtherOsc else IsOsc52;
        }
        if c == SEMICOLON {
          if haveC || haveP {
            haveSemi := true;
            i := i + 1;
            continue;
          } else {
            return IsOtherOsc;
          }
        } else if c == LETTER_C && !haveC {
          haveC := true;
        } else if c == LETTER_P && !haveP {
          haveP := true;
        } else if !OtherSelectionChar(c) {
          return IsOtherOsc;
        }
        i := i + 1;
      }
      return IsOtherOsc;
    }

    /** get_esc_status_at_offset: the classification of the byte at offset (below the buffered length). */
    method GetEscStatusAtOffset(offset: nat, osc52: bool) returns (r: EscStatus)
      requires Valid() && offset < end - start
      ensures r == EscStatusAt(Contents(), offset, osc52)
    {
      var buflen := end - start;
      var c := buf[start + offset];
      var escSize := 0;
      if c == OSC_CODE {
        escSize := 1;
      } else if c == ESC_CODE {
        escSize := 2;
      } else if c == BEL_CODE {
        return IsBel;
      } else if c == ST_CODE {
        return IsST;
      } else {
        return IsNotEsc;
      }
      var status := IsOtherEsc;
      if escSize == 1 {
        status := IsUnknownOsc;
      } else {
        if offset + 1 >= buflen {
          status := IsUnknownEsc;
        } else {
          c := buf[start + offset + 1];
          if c == OSC_ESC {
            status := IsUnknownOsc;
          } else if c == ST_ESC {
            return IsST;
          } else {
            status := IsOtherEsc;
          }
        }
      }
      if status == IsUnknownOsc && osc52 {
        status := BufContains52(offset + escSize);
      }
      return status;
    }
  }
}
