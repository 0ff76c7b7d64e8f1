/**
 * The state icons on a tab's close button (src/roxterm-tab-button.c): a
 * bit set of states, of which the highest set one decides the icon shown
 * in place of the close icon, with each icon loaded once and kept in a
 * cache shared by every button.
 */
module TabButtons {
  import opened Wrappers

  /** The RoxtermTabState bits. */
  const STATE_BUSY: bv32 := 1
  const STATE_OUTPUT: bv32 := 2
  const STATE_EXITED: bv32 := 4
  const STATE_BELL: bv32 := 8

  /** Number of state icons, one per bit. */
  const N_ICONS: nat := 4

  /** The resource leafnames of the icons, indexed by bit number. */
  const IconNames: seq<string> := ["busy", "output", "exited", "attention"]

  /** A loaded image; only its identity matters here. */
  datatype Pixbuf = Pixbuf(id: nat)

  /** What a button shows: the close icon or a state's image. */
  datatype Shown = CloseIcon | Picture(p: Pixbuf)

  /** Whether bit k (below N_ICONS) is set. */
  predicate Bit(s: bv32, k: nat)
    requires k < N_ICONS
  {
    s & ((1 as bv32) << k) != 0
  }

  /**
   * The state index show_state picks: 1 plus the highest set bit among the
   * four, or 0 when none is set. Defined by a descending search from bit n-1.
   */
  function HighestFrom(s: bv32, n: nat): (r: nat)
    requires n <= N_ICONS
    ensures r <= n
    ensures r == 0 <==> forall k :: 0 <= k < n ==> !Bit(s, k)
    ensures r > 0 ==> Bit(s, r - 1) && forall k :: r <= k < n ==> !Bit(s, k)
  {
    if n == 0 then 0
    else if Bit(s, n - 1) then n
    else HighestFrom(s, n - 1)
  }

  /** The state whose icon is shown. */
  function Highest(s: bv32): (r: nat)
    ensures r <= N_ICONS
  {
    HighestFrom(s, N_ICONS)
  }

  /** The highest set bit is the one below which show_state stops. */
  lemma HighestIs(s: bv32, n: nat)
    requires 0 < n <= N_ICONS && Bit(s, n - 1)
    requires forall k: nat :: n <= k < N_ICONS ==> !Bit(s, k)
    ensures Highest(s) == n
  {
  }

  /** BELL wins over every other state, and the close icon is used only when no state is set. */
  lemma HighestPriority(s: bv32)
    ensures s & STATE_BELL != 0 ==> Highest(s) == 4
    ensures s & STATE_BELL == 0 && s & STATE_EXITED != 0 ==> Highest(s) == 3
    ensures s & (STATE_BELL | STATE_EXITED) == 0 && s & STATE_OUTPUT != 0 ==> Highest(s) == 2
    ensures s & (STATE_BELL | STATE_EXITED | STATE_OUTPUT) == 0 && s & STATE_BUSY != 0 ==> Highest(s) == 1
    ensures Highest(s) == 0 <==> s & (STATE_BELL | STATE_EXITED | STATE_OUTPUT | STATE_BUSY) == 0
  {
    assert (1 as bv32) << 0 == STATE_BUSY;
    assert (1 as bv32) << 1 == STATE_OUTPUT;
    assert (1 as bv32) << 2 == STATE_EXITED;
    assert (1 as bv32) << 3 == STATE_BELL;
    assert Bit(s, 3) <==> s & STATE_BELL != 0;
    assert Bit(s, 2) <==> s & STATE_EXITED != 0;
    assert Bit(s, 1) <==> s & STATE_OUTPUT != 0;
    assert Bit(s, 0) <==> s & STATE_BUSY != 0;
    assert s & (STATE_BELL | STATE_EXITED) == 0 <==> !Bit(s, 3) && !Bit(s, 2);
    assert s & (STATE_BELL | STATE_EXITED | STATE_OUTPUT) == 0 <==> !Bit(s, 3) && !Bit(s, 2) && !Bit(s, 1);
    assert s & (STATE_BELL | STATE_EXITED | STATE_OUTPUT | STATE_BUSY) == 0
      <==> !Bit(s, 3) && !Bit(s, 2) && !Bit(s, 1) && !Bit(s, 0);
    if Bit(s, 3) {
      HighestIs(s, 4);
    } else if Bit(s, 2) {
      HighestIs(s, 3);
    } else if Bit(s, 1) {
      HighestIs(s, 2);
    } else if Bit(s, 0) {
      HighestIs(s, 1);
    }
  }

  /** The static roxterm_tab_icon_pixbufs array: one slot per state icon, empty until loaded. */
  class IconCache {
    const pixbufs: array<Option<Pixbuf>>

    ghost predicate Valid()
      reads this
    {
      pixbufs.Length == N_ICONS
    }

    constructor ()
      ensures Valid() && fresh(pixbufs)
      ensures forall i :: 0 <= i < N_ICONS ==> pixbufs[i] == None
    {
      pixbufs := new Option<Pixbuf>[N_ICONS](_ => None);
    }
  }

  class TabButton {
    var tabState: bv32
    /** The image on the button, as the MultitextTabButton underneath shows it. */
    var shown: Shown

    /** roxterm_tab_button_new: no state, close icon. */
    constructor ()
      ensures tabState == 0 && shown == CloseIcon
    {
      tabState := 0;
      shown := CloseIcon;
    }

    /**
     * roxterm_tab_button_show_icon: state 0 shows the close icon; state n
     * shows the cached image of bit n-1, loading it (load stands for the
     * resource loader, given the icon's leafname) when the slot is empty.
     * A failed load shows the close icon and leaves the slot empty.
     */
    method ShowIcon(n: nat, cache: IconCache, load: string -> Option<Pixbuf>)
      requires cache.Valid() && n <= N_ICONS
      modifies this`shown, cache.pixbufs
      ensures n == 0 ==> shown == CloseIcon && cache.pixbufs[..] == old(cache.pixbufs[..])
      ensures n > 0 && old(cache.pixbufs[n - 1]).Some? ==>
        shown == Picture(old(cache.pixbufs[n - 1]).value) && cache.pixbufs[..] == old(cache.pixbufs[..])
      ensures n > 0 && old(cache.pixbufs[n - 1]).None? ==>
        cache.pixbufs[..] == old(cache.pixbufs[..])[n - 1 := load(IconNames[n - 1])]
        && shown == (if load(IconNames[n - 1]).Some? then Picture(load(IconNames[n - 1]).value) else CloseIcon)
    {
      if n == 0 {
        shown := CloseIcon;
        return;
      }
      var i := n - 1;
      if cache.pixbufs[i].None? {
        cache.pixbufs[i] := load(IconNames[i]);
        if cache.pixbufs[i].None? {
          shown := CloseIcon;
          return;
        }
      }
      shown := Picture(cache.pixbufs[i].value);
    }

    /** roxterm_tab_button_show_state: search the bits from the highest down and show the first one set. */
    method ShowState(cache: IconCache, load: string -> Option<Pixbuf>)
      requires cache.Valid()
      modifies this`shown, cache.pixbufs
      ensures ShowsState(Highest(tabState), old(cache.pixbufs[..]), cache.pixbufs[..], shown, load)
    {
      var n := N_ICONS;
      while n > 0
        invariant n <= N_ICONS
        invariant forall k: nat :: n <= k < N_ICONS ==> !Bit(tabState, k)
        invariant cache.pixbufs[..] == old(cache.pixbufs[..])
      {
        if tabState & ((1 as bv32) << (n - 1)) != 0 {
          HighestIs(tabState, n);
          ShowIcon(n, cache, load);
          return;
        }
        n := n - 1;
      }
      ShowIcon(0, cache, load);
    }

    /** roxterm_tab_button_set_state: the given bits are added, then the icon is updated. */
    method SetState(bits: bv32, cache: IconCache, load: string -> Option<Pixbuf>)
      requires cache.Valid()
      modifies this, cache.pixbufs
      ensures tabState == old(tabState) | bits
      ensures ShowsState(Highest(tabState), old(cache.pixbufs[..]), cache.pixbufs[..], shown, load)
    {
      tabState := tabState | bits;
      ShowState(cache, load);
    }

    /** roxterm_tab_button_clear_state: the given bits are removed, then the icon is updated. */
    method ClearState(bits: bv32, cache: IconCache, load: string -> Option<Pixbuf>)
      requires cache.Valid()
      modifies this, cache.pixbufs
      ensures tabState == old(tabState) & !bits
      ensures ShowsState(Highest(tabState), old(cache.pixbufs[..]), cache.pixbufs[..], shown, load)
    {
      tabState := tabState & !bits;
      ShowState(cache, load);
    }
  }

  /** The cache and the image after showing state n, from the cache before (ShowIcon's contract as a relation). */
  ghost predicate ShowsState(n: nat, before: seq<Option<Pixbuf>>, after: seq<Option<Pixbuf>>, shown: Shown,
                             load: string -> Option<Pixbuf>)
  {
    n <= N_ICONS && |before| == N_ICONS
    && (n == 0 ==> shown == CloseIcon && after == before)
    && (n > 0 && before[n - 1].Some? ==> shown == Picture(before[n - 1].value) && after == before)
    && (n > 0 && before[n - 1].None? ==>
         after == before[n - 1 := load(IconNames[n - 1])]
         && shown == (if load(IconNames[n - 1]).Some? then Picture(load(IconNames[n - 1]).value) else CloseIcon))
  }

  /** Setting bits and then clearing the same bits removes them and keeps every other bit. */
  lemma SetThenClear(s: bv32, bits: bv32)
    ensures (s | bits) & !bits == s & !bits
    ensures ((s | bits) & !bits) & bits == 0
  {
  }

  /**
   * Once a state's image has loaded, it is reused: a second showing of the
   * same state displays the same image whatever the loader would now return.
   */
  method CachedIconReused(b: TabButton, cache: IconCache, n: nat, load1: string -> Option<Pixbuf>,
                          load2: string -> Option<Pixbuf>) returns (first: Shown, second: Shown)
    requires cache.Valid() && 0 < n <= N_ICONS
    modifies b, cache.pixbufs
    ensures first.Picture? <==> old(cache.pixbufs[n - 1]).Some? || load1(IconNames[n - 1]).Some?
    ensures first.Picture? ==> second == first && cache.pixbufs[n - 1] == Some(first.p)
  {
    b.ShowIcon(n, cache, load1);
    first := b.shown;
    b.ShowIcon(n, cache, load2);
    second := b.shown;
  }
}
