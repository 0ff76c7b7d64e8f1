/**
 * The list of character encodings offered in the terminal's menu
 * (src/encodings.c), stored in a key file as a count "n" and one entry
 * "e<m>" per encoding, all in the group "roxterm encodings".
 */
module Encodings {
  import opened Wrappers
  import opened Decimal
  import opened KeyFiles
  import opened OptsFile

  const Group: string := "roxterm encodings"
  const CountKey: string := "n"

  /** encodings_get_key: the key "e%d" of entry n. */
  function Key(n: int): (k: string)
    ensures |k| >= 2 && k[0] == 'e' && k != CountKey
  {
    "e" + IntToString(n)
  }

  lemma KeyInjective(a: int, b: int)
    requires Key(a) == Key(b)
    ensures a == b
  {
    assert Key(a)[1..] == IntToString(a);
    assert Key(b)[1..] == IntToString(b);
    IntToStringInjective(a, b);
  }

  /** encodings_lookup: entry n, with "UTF-8" for a missing or empty one. */
  function Lookup(kf: Entries, n: int): (r: string)
    ensures r != []
    ensures (Group, Key(n)) in kf && kf[(Group, Key(n))] != [] ==> r == kf[(Group, Key(n))]
    ensures (Group, Key(n)) !in kf || kf[(Group, Key(n))] == [] ==> r == "UTF-8"
  {
    LookupStringWithDefault(kf, Group, Key(n), Some("UTF-8")).value
  }

  /** encodings_count: the stored count, 0 when it is missing or not a number. */
  function Count(kf: Entries): int
  {
    LookupIntWithDefault(kf, Group, CountKey, 0)
  }

  /** Entries 0 to n - 1, as encodings_lookup reads them. */
  function Listed(kf: Entries, n: nat): (r: seq<string>)
    ensures |r| == n && forall m :: 0 <= m < n ==> r[m] == Lookup(kf, m)
  {
    if n == 0 then [] else Listed(kf, n - 1) + [Lookup(kf, n - 1)]
  }

  /** The encodings a key file holds: as many entries as the count says, none for a negative count. */
  function Encodings(kf: Entries): seq<string>
  {
    Listed(kf, if Count(kf) < 0 then 0 else Count(kf))
  }

  /** encodings_build_default: a count of 2, UTF-8 and then ISO-8859-1. */
  method BuildDefault() returns (kf: KeyFile)
    ensures fresh(kf)
    ensures kf.entries == DefaultEntries()
  {
    kf := new KeyFile();
    kf.SetInteger(Group, CountKey, 2);
    kf.SetString(Group, "e0", "UTF-8");
    kf.SetString(Group, "e1", "ISO-8859-1");
  }

  function DefaultEntries(): Entries
  {
    map[(Group, CountKey) := "2", (Group, "e0") := "UTF-8", (Group, "e1") := "ISO-8859-1"]
  }

  /** The default key file lists UTF-8 and ISO-8859-1. */
  lemma DefaultEncodings()
    ensures Count(DefaultEntries()) == 2
    ensures Encodings(DefaultEntries()) == ["UTF-8", "ISO-8859-1"]
  {
    var kf := DefaultEntries();
    assert kf == map[(Group, CountKey) := IntToString(2)][(Group, "e0") := "UTF-8"][(Group, "e1") := "ISO-8859-1"];
    LookupIntAfterSet(map[], Group, CountKey, 2, 0);
    assert Key(0) == "e0" && Key(1) == "e1";
  }

  /**
   * What can go wrong in encodings_list as written: the store of "Default"
   * through the NULL that g_new returns for zero slots, or g_new aborting
   * the program when the slot count is negative (it is converted to a huge
   * unsigned size, and the size computation overflows).
   */
  datatype ListFault = WritesThroughNull | AllocationAborts

  /**
   * encodings_list as written, with the NULL-terminated vector read as the
   * strings before its first NULL: it allocates n + 2 slots, puts
   * "Default" in slot 0 and NULL in slot n + 1. For a stored count of -1
   * the NULL lands on "Default" and the list is empty. For -2 nothing is
   * allocated and "Default" is stored through NULL; below -2 the
   * allocation itself aborts.
   */
  function ListAsWritten(kf: Entries): Result<seq<string>, ListFault>
  {
    var n := Count(kf);
    if n + 2 < 0 then Err(AllocationAborts)
    else if n + 2 == 0 then Err(WritesThroughNull)
    else if n == -1 then Ok([])
    else Ok(["Default"] + Listed(kf, n))
  }

  /**
   * A count of -1 loses "Default"; a count of -2 stores "Default" through a
   * NULL vector; a count of -3 aborts in the allocation.
   */
  lemma ListAsWrittenNegativeCount(kf: Entries)
    ensures ListAsWritten(kf[(Group, CountKey) := "-1"]) == Ok([])
    ensures ListAsWritten(kf[(Group, CountKey) := "-2"]) == Err(WritesThroughNull)
    ensures ListAsWritten(kf[(Group, CountKey) := "-3"]) == Err(AllocationAborts)
  {
    LookupIntAfterSet(kf, Group, CountKey, -1, 0);
    LookupIntAfterSet(kf, Group, CountKey, -2, 0);
    LookupIntAfterSet(kf, Group, CountKey, -3, 0);
    assert IntToString(-1) == "-1" && IntToString(-2) == "-2" && IntToString(-3) == "-3";
  }

  /**
   * encodings_list with a negative count read as no entries: "Default"
   * followed by every stored encoding, in order.
   */
  method List(kf: KeyFile) returns (list: seq<string>)
    ensures list == ["Default"] + Encodings(kf.entries)
    ensures Count(kf.entries) >= 0 ==> ListAsWritten(kf.entries) == Ok(list)
  {
    var n := Count(kf.entries);
    if n < 0 {
      n := 0;
    }
    var a := new string[n + 1](_ => "");
    a[0] := "Default";
    var m := 0;
    while m < n
      invariant 0 <= m <= n
      invariant a[0] == "Default"
      invariant forall j :: 0 <= j < m ==> a[j + 1] == Lookup(kf.entries, j)
    {
      a[m + 1] := Lookup(kf.entries, m);
      m := m + 1;
    }
    list := a[..];
    assert list == ["Default"] + Listed(kf.entries, n);
  }

  /** encodings_change: entry n is set to enc. */
  method Change(kf: KeyFile, n: int, enc: string)
    modifies kf
    ensures kf.entries == old(kf.entries)[(Group, Key(n)) := enc]
  {
    kf.SetString(Group, Key(n), enc);
  }

  /** encodings_add: enc is stored at the old count, and the count goes up by one. */
  method Add(kf: KeyFile, enc: string)
    requires Count(kf.entries) < INT_MAX
    modifies kf
    ensures kf.entries == Added(old(kf.entries), enc)
  {
    var n := Count(kf.entries);
    Change(kf, n, enc);
    kf.SetInteger(Group, CountKey, n + 1);
  }

  /** The entries after encodings_add. */
  function Added(kf: Entries, enc: string): Entries
  {
    kf[(Group, Key(Count(kf))) := enc][(Group, CountKey) := IntToString(Count(kf) + 1)]
  }

  /** Setting entry a leaves every other entry, and the count, as they read before. */
  lemma LookupAfterChange(kf: Entries, a: int, enc: string, m: int)
    ensures Lookup(kf[(Group, Key(a)) := enc], m) == if m == a then (if enc == [] then "UTF-8" else enc) else Lookup(kf, m)
    ensures Count(kf[(Group, Key(a)) := enc]) == Count(kf)
  {
    if m != a && Key(m) == Key(a) {
      KeyInjective(m, a);
    }
    assert GetInteger(kf[(Group, Key(a)) := enc], Group, CountKey) == GetInteger(kf, Group, CountKey);
  }

  /** Setting the count leaves every entry as it read before. */
  lemma LookupAfterCount(kf: Entries, c: int, m: int)
    ensures Lookup(kf[(Group, CountKey) := IntToString(c)], m) == Lookup(kf, m)
  {
  }

  /** Listing is unchanged when no listed entry reads differently. */
  lemma {:induction false} ListedSame(kf: Entries, kf': Entries, n: nat)
    requires forall m :: 0 <= m < n ==> Lookup(kf', m) == Lookup(kf, m)
    ensures Listed(kf', n) == Listed(kf, n)
  {
    if n > 0 {
      ListedSame(kf, kf', n - 1);
    }
  }

  /** encodings_add appends the encoding (an empty one reads as UTF-8) and leaves the others. */
  lemma AddAppends(kf: Entries, enc: string)
    requires 0 <= Count(kf) < INT_MAX
    ensures Count(Added(kf, enc)) == Count(kf) + 1
    ensures Encodings(Added(kf, enc)) == Encodings(kf) + [if enc == [] then "UTF-8" else enc]
  {
    AddedCount(kf, enc);
    AddedListed(kf, enc);
  }

  /** encodings_add stores the count plus one. */
  lemma AddedCount(kf: Entries, enc: string)
    requires INT_MIN <= Count(kf) < INT_MAX
    ensures Count(Added(kf, enc)) == Count(kf) + 1
  {
    var n := Count(kf);
    LookupIntAfterSet(kf[(Group, Key(n)) := enc], Group, CountKey, n + 1, 0);
  }

  /** After encodings_add, the first count + 1 entries are the old ones, then the new encoding. */
  lemma AddedListed(kf: Entries, enc: string)
    requires Count(kf) >= 0
    ensures Listed(Added(kf, enc), Count(kf) + 1) == Listed(kf, Count(kf)) + [if enc == [] then "UTF-8" else enc]
  {
    var n := Count(kf);
    var k1 := kf[(Group, Key(n)) := enc];
    forall m | 0 <= m < n + 1
      ensures Lookup(Added(kf, enc), m) == (Listed(kf, n) + [if enc == [] then "UTF-8" else enc])[m]
    {
      LookupAfterCount(k1, n + 1, m);
      LookupAfterChange(kf, n, enc, m);
    }
  }

  /**
   * The shifting loop of encodings_remove from entry n: each entry from n
   * up to count - 2 takes the value that the next one reads as.
   */
  function Shifted(kf: Entries, n: int, count: int): Entries
    decreases count - n
  {
    if n < count - 1 then Shifted(kf[(Group, Key(n)) := Lookup(kf, n + 1)], n + 1, count) else kf
  }

  /** The entries after encodings_remove(n): shifted down, the count one less. */
  function Removed(kf: Entries, n: int): Entries
  {
    Shifted(kf, n, Count(kf))[(Group, CountKey) := IntToString(Count(kf) - 1)]
  }

  /**
   * encodings_remove: the entries after n move down by one and the count
   * goes down by one (the last entry stays in the file, beyond the count).
   */
  method Remove(kf: KeyFile, n: int)
    modifies kf
    ensures kf.entries == Removed(old(kf.entries), n)
  {
    var count := Count(kf.entries);
    var k := n;
    while k < count - 1
      invariant Shifted(kf.entries, k, count) == Shifted(old(kf.entries), n, count)
      invariant Count(kf.entries) == count
      decreases count - k
    {
      var enc := Lookup(kf.entries, k + 1);
      LookupAfterChange(kf.entries, k, enc, 0);
      Change(kf, k, enc);
      k := k + 1;
    }
    kf.SetInteger(Group, CountKey, count - 1);
  }

  /** After the shift from n, entries n to count - 2 read as their successors did; the others are unchanged. */
  lemma {:induction false} LookupShifted(kf: Entries, n: int, count: int, m: int)
    ensures Lookup(Shifted(kf, n, count), m) == if n <= m < count - 1 then Lookup(kf, m + 1) else Lookup(kf, m)
    ensures Count(Shifted(kf, n, count)) == Count(kf)
    decreases count - n
  {
    if n < count - 1 {
      var kf' := kf[(Group, Key(n)) := Lookup(kf, n + 1)];
      LookupShifted(kf', n + 1, count, m);
      LookupAfterChange(kf, n, Lookup(kf, n + 1), m);
      LookupAfterChange(kf, n, Lookup(kf, n + 1), m + 1);
      LookupAfterChange(kf, n, Lookup(kf, n + 1), 0);
    }
  }

  /** encodings_remove(k) of an existing entry drops exactly that entry from the list. */
  lemma RemoveDrops(kf: Entries, k: int)
    requires 0 <= k < Count(kf)
    ensures Count(Removed(kf, k)) == Count(kf) - 1
    ensures Encodings(Removed(kf, k)) == Encodings(kf)[..k] + Encodings(kf)[k + 1..]
  {
    var count := Count(kf);
    var s := Shifted(kf, k, count);
    LookupShifted(kf, k, count, 0);
    LookupIntAfterSet(s, Group, CountKey, count - 1, 0);
    RemovedListed(kf, k);
  }

  /** The first count - 1 entries after encodings_remove(k) are the old list without entry k. */
  lemma RemovedListed(kf: Entries, k: int)
    requires 0 <= k < Count(kf)
    ensures Listed(Removed(kf, k), Count(kf) - 1) == Listed(kf, Count(kf))[..k] + Listed(kf, Count(kf))[k + 1..]
  {
    var count := Count(kf);
    var r := Removed(kf, k);
    var e := Listed(kf, count);
    forall m | 0 <= m < count - 1
      ensures Lookup(r, m) == (e[..k] + e[k + 1..])[m]
    {
      RemovedLookup(kf, k, m);
      DropIndex(e, k, m);
    }
  }

  /** Entry m after encodings_remove(k) reads as entry m, or m + 1 from k on, did before. */
  lemma RemovedLookup(kf: Entries, k: int, m: int)
    requires 0 <= k < Count(kf) && 0 <= m < Count(kf) - 1
    ensures Lookup(Removed(kf, k), m) == if m < k then Lookup(kf, m) else Lookup(kf, m + 1)
  {
    var s := Shifted(kf, k, Count(kf));
    LookupAfterCount(s, Count(kf) - 1, m);
    LookupShifted(kf, k, Count(kf), m);
  }

  lemma DropIndex(e: seq<string>, k: int, m: int)
    requires 0 <= k < |e| && 0 <= m < |e| - 1
    ensures (e[..k] + e[k + 1..])[m] == if m < k then e[m] else e[m + 1]
  {
  }
}
