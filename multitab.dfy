/**
 * The window and tab bookkeeping of the tabbed-window layer
 * (src/multitab.c): window-title templates, the zoom index, moving the
 * current tab, shading the next/previous items, removing a tab, the
 * scroll bar position and a tab's status icon.
 */
module MultiTabs {
  import opened Wrappers
  import Uri

  /** multi_win_zoom_factors has this many entries; index 7 is the normal size. */
  const N_ZOOM_FACTORS: int := 15
  const NORMAL_ZOOM_INDEX: int := 7
  /** PANGO_SCALE_XX_LARGE (1.2 cubed). */
  const PANGO_SCALE_XX_LARGE: real := 1.728
  /** The last entry of multi_win_zoom_factors. */
  const LARGEST_ZOOM_FACTOR: real := PANGO_SCALE_XX_LARGE * 1.2 * 1.2 * 1.2 * 1.2
  /** The stock image a tab shows when its status stock is NULL. */
  const STOCK_CLOSE: string := "gtk-close"
  const NUL: char := 0 as char

  // Title templates

  /**
   * Whether a title template is well formed: every '%' is either half of
   * "%%" or the start of "%s", at most one "%s" appears (got says one
   * already has), and no '%' is left over at the end.
   */
  predicate TemplateOk(s: string, got: bool)
    decreases |s|
  {
    s == [] || (if s[0] == '%' then AfterPercent(s[1..], got) else TemplateOk(s[1..], got))
  }

  /** What may follow a '%' that starts a directive. */
  predicate AfterPercent(s: string, got: bool)
    decreases |s|
  {
    s != [] && ((s[0] == '%' && TemplateOk(s[1..], got)) || (s[0] == 's' && !got && TemplateOk(s[1..], true)))
  }

  /** The scan's state at position i as the rest of the decision: after an odd run of '%' or not. */
  predicate Rest(tt: string, i: nat, lwpc: bool, got: bool)
    requires i <= |tt|
  {
    if lwpc then AfterPercent(tt[i..], got) else TemplateOk(tt[i..], got)
  }

  /**
   * check_title_template: a scan of the string and its terminating NUL,
   * lwpc remembering an unpaired '%' and got_pcs a "%s" already seen.
   */
  method CheckTitleTemplate(tt: string) returns (ok: bool)
    requires NUL !in tt
    ensures ok == TemplateOk(tt, false)
  {
    var lwpc := false;
    var gotPcs := false;
    var i := 0;
    while true
      invariant 0 <= i <= |tt|
      invariant TemplateOk(tt, false) == Rest(tt, i, lwpc, gotPcs)
      decreases |tt| - i
    {
      var c := if i < |tt| then tt[i] else NUL;
      if c == '%' {
        if !lwpc && i + 1 == |tt| {
          assert i < |tt| && tt[i..][0] == '%';
          assert tt[i..][1..] == [];
          assert !TemplateOk(tt[i..], gotPcs);
          return false;
        }
        lwpc := !lwpc;
      } else {
        if lwpc {
          if c == 's' {
            if gotPcs {
              return false;
            }
            gotPcs := true;
          } else {
            return false;
          }
        }
        lwpc := false;
      }
      if c == NUL {
        return true;
      }
      i := i + 1;
    }
  }

  /**
   * The validator accepts exactly the templates printf can format with
   * one string: the two agree on every template.
   */
  lemma {:induction false} TemplateOkIffFormattable(s: string, arg: string, got: bool)
    ensures TemplateOk(s, got) <==> Uri.FormatOne(s, arg, got).Some?
    decreases |s|
  {
    if s != [] {
      if s[0] != '%' {
        TemplateOkIffFormattable(s[1..], arg, got);
      } else if |s| >= 2 {
        assert s[1..][1..] == s[2..];
        if s[1] == '%' {
          TemplateOkIffFormattable(s[2..], arg, got);
        } else if s[1] == 's' && !got {
          TemplateOkIffFormattable(s[2..], arg, true);
        }
      }
    }
  }

  /** Templates the validator accepts: one "%s", and "%%" escapes. */
  lemma TemplateExamples()
    ensures TemplateOk("%s", false)
    ensures TemplateOk("100%% %s", false)
  {
    assert "%s"[1..] == "s" && "s"[1..] == [];
    var a := "100%% %s";
    assert a[1..] == "00%% %s" && a[2..] == "0%% %s" && a[3..] == "%% %s";
    assert a[4..] == "% %s" && a[5..] == " %s" && a[6..] == "%s" && a[7..] == "s" && a[8..] == [];
  }

  /** Templates the validator rejects: two "%s", a trailing '%', another conversion. */
  lemma TemplateRejections()
    ensures !TemplateOk("%s %s", false)
    ensures !TemplateOk("50%", false)
    ensures !TemplateOk("%d", false)
  {
    var b := "%s %s";
    assert b[1..] == "s %s" && b[2..] == " %s" && b[3..] == "%s" && b[4..] == "s";
    var c := "50%";
    assert c[1..] == "0%" && c[2..] == "%" && c[3..] == [];
    assert "%d"[1..] == "d";
  }

  /** The title a window shows: none, the formatted template, or a template printf cannot format. */
  datatype Title = NoTitle | TitleText(text: string) | UndefinedTitle

  /**
   * make_title: no template gives no title; a template holding "%s" is
   * formatted with the title ("" for none); any other is used as it is.
   */
  function MakeTitle(template: Option<string>, title: Option<string>): Title
  {
    if template.None? then NoTitle
    else if Uri.HasPercentS(template.value) then
      match Uri.FormatOne(template.value, if title.Some? then title.value else "", false)
      case None => UndefinedTitle
      case Some(t) => TitleText(t)
    else TitleText(template.value)
  }

  /** A template the validator accepts always gives a title. */
  lemma ValidTemplateGivesTitle(template: string, title: Option<string>)
    requires TemplateOk(template, false)
    ensures MakeTitle(Some(template), title).TitleText?
  {
    TemplateOkIffFormattable(template, if title.Some? then title.value else "", false);
  }

  /** A template with one "%s" and no other '%' puts the title in its place. */
  lemma MakeTitleSubstitutes(p: string, q: string, title: Option<string>)
    requires '%' !in p && '%' !in q
    ensures MakeTitle(Some(p + "%s" + q), title) == TitleText(p + (if title.Some? then title.value else "") + q)
  {
    var t := p + "%s" + q;
    assert t[|p|] == '%' && t[|p| + 1] == 's';
    assert Uri.HasPercentS(t);
    Uri.FormatTemplate(p, q, if title.Some? then title.value else "");
  }

  // Zoom

  /**
   * The zoom index multi_win_new_blank starts with, as written: a negative
   * request gives the normal index, a too large one the largest zoom
   * FACTOR truncated to an int (3) instead of the largest index.
   */
  function InitialZoomAsWritten(zoom: int): int
  {
    if zoom < 0 then NORMAL_ZOOM_INDEX
    else if zoom >= N_ZOOM_FACTORS then LARGEST_ZOOM_FACTOR.Floor
    else zoom
  }

  /** A request above the largest zoom gets index 3, smaller than the normal size. */
  lemma InitialZoomAsWrittenShrinks()
    ensures InitialZoomAsWritten(N_ZOOM_FACTORS) == 3
    ensures InitialZoomAsWritten(N_ZOOM_FACTORS) < NORMAL_ZOOM_INDEX < N_ZOOM_FACTORS - 1
  {
    assert LARGEST_ZOOM_FACTOR == 3.5831808;
  }

  /** The initial zoom index with a too large request clamped to the largest index. */
  function InitialZoom(zoom: int): (r: int)
    ensures 0 <= r < N_ZOOM_FACTORS
    ensures 0 <= zoom < N_ZOOM_FACTORS ==> r == zoom
    ensures zoom < 0 ==> r == NORMAL_ZOOM_INDEX
    ensures zoom >= N_ZOOM_FACTORS ==> r == N_ZOOM_FACTORS - 1
  {
    if zoom < 0 then NORMAL_ZOOM_INDEX
    else if zoom >= N_ZOOM_FACTORS then N_ZOOM_FACTORS - 1
    else zoom
  }

  // Moving tabs

  /** The position of x in a list it occurs in: its first occurrence. */
  function IndexOf<T(==)>(s: seq<T>, x: T): (r: nat)
    requires x in s
    ensures r < |s| && s[r] == x && x !in s[..r]
  {
    if s[0] == x then 0
    else
      var r := 1 + IndexOf(s[1..], x);
      assert s[..r] == [s[0]] + s[1..][..r - 1];
      r
  }

  /**
   * The target of multi_win_move_tab_by_one from page `page`: page+dir,
   * wrapped to the other end when wrapping is on, and None when it is
   * still out of range.
   */
  function MoveTarget(page: int, dir: int, ntabs: int, wrap: bool): (r: Option<int>)
    ensures r.Some? ==> 0 <= r.value < ntabs
    ensures !wrap ==> r == (if 0 <= page + dir < ntabs then Some(page + dir) else None)
  {
    var pos := page + dir;
    var pos' := if wrap then (if pos >= ntabs then 0 else if pos < 0 then ntabs - 1 else pos) else pos;
    if 0 <= pos' < ntabs then Some(pos') else None
  }

  /** With wrapping on, moving right from the last tab goes to the first and left from the first to the last. */
  lemma MoveTargetWraps(ntabs: int)
    requires ntabs >= 1
    ensures MoveTarget(ntabs - 1, 1, ntabs, true) == Some(0)
    ensures MoveTarget(0, -1, ntabs, true) == Some(ntabs - 1)
    ensures forall page, dir :: 0 <= page < ntabs && (dir == 1 || dir == -1) ==> MoveTarget(page, dir, ntabs, true).Some?
  {
  }

  /** multi_tab_move_to_position on the tab list: the tab at k is taken out and put back at p. */
  function MoveTo<T>(s: seq<T>, k: nat, p: nat): (r: seq<T>)
    requires k < |s| && p < |s|
    ensures |r| == |s|
  {
    var rest := s[..k] + s[k + 1..];
    rest[..p] + [s[k]] + rest[p..]
  }

  /** Where every tab ends up after a move: the moved one at p, the ones between shifted by one, the rest in place. */
  lemma MoveToSpec<T>(s: seq<T>, k: nat, p: nat, i: nat)
    requires k < |s| && p < |s| && i < |s|
    ensures MoveTo(s, k, p)[i] ==
      if i == p then s[k]
      else if k <= i < p then s[i + 1]
      else if p < i <= k then s[i - 1]
      else s[i]
  {
  }

  /** Moving a tab back to where it came from restores the order, and a move only reorders the tabs. */
  lemma MoveToInverse<T>(s: seq<T>, k: nat, p: nat)
    requires k < |s| && p < |s|
    ensures MoveTo(MoveTo(s, k, p), p, k) == s
    ensures multiset(MoveTo(s, k, p)) == multiset(s)
  {
    var m := MoveTo(s, k, p);
    forall i | 0 <= i < |s|
      ensures MoveTo(m, p, k)[i] == s[i]
    {
      MoveToSpec(m, p, k, i);
      if i == k {
        MoveToSpec(s, k, p, p);
      } else if p <= i < k {
        MoveToSpec(s, k, p, i + 1);
      } else if k < i <= p {
        MoveToSpec(s, k, p, i - 1);
      } else {
        MoveToSpec(s, k, p, i);
      }
    }
    var rest := s[..k] + s[k + 1..];
    assert s == s[..k] + [s[k]] + s[k + 1..];
    assert rest == rest[..p] + rest[p..];
    calc {
      multiset(m);
      multiset(rest[..p]) + multiset([s[k]]) + multiset(rest[p..]);
      multiset(rest) + multiset([s[k]]);
      multiset(s[..k]) + multiset(s[k + 1..]) + multiset([s[k]]);
      multiset(s);
    }
  }

  /** The scroll bar positions; Query asks without changing. */
  datatype ScrollBarPosition = ScrollBarNone | ScrollBarRight | ScrollBarLeft | ScrollBarQuery

  /** A tab, as far as its status icon goes. */
  class MultiTab {
    /** The status stock, NULL meaning the close icon. */
    var statusStock: Option<string>
    /** Whether the tab label has an image, and the stock it shows. */
    const hasImage: bool
    var imageStock: string

    constructor (hasImage: bool)
      ensures this.hasImage == hasImage && statusStock == None && imageStock == STOCK_CLOSE
    {
      this.hasImage := hasImage;
      statusStock := None;
      imageStock := STOCK_CLOSE;
    }

    /**
     * multi_tab_set_status_stock: nothing happens when the new stock is the
     * old one, NULL counting as the close icon; otherwise it is stored and
     * the image, if any, shows it.
     */
    method SetStatusStock(stock: Option<string>)
      modifies this
      ensures StockOrClose(old(statusStock)) == StockOrClose(stock) ==>
        statusStock == old(statusStock) && imageStock == old(imageStock)
      ensures StockOrClose(old(statusStock)) != StockOrClose(stock) ==>
        statusStock == stock && imageStock == (if hasImage then StockOrClose(stock) else old(imageStock))
    {
      if StockOrClose(statusStock) == StockOrClose(stock) {
        return;
      }
      statusStock := stock;
      if hasImage {
        imageStock := StockOrClose(stock);
      }
    }
  }

  /** A stock name, with NULL standing for the close icon. */
  function StockOrClose(stock: Option<string>): (r: string)
    ensures stock.None? ==> r == STOCK_CLOSE
    ensures stock.Some? ==> r == stock.value
    ensures r == STOCK_CLOSE <==> stock.None? || stock == Some(STOCK_CLOSE)
  {
    if stock.Some? then stock.value else STOCK_CLOSE
  }

  /**
   * Two stock settings show the same icon exactly when they are equal, or
   * each is NULL or the close stock.
   */
  lemma StockOrCloseSame(a: Option<string>, b: Option<string>)
    ensures StockOrClose(a) == StockOrClose(b) <==>
      a == b || ((a.None? || a == Some(STOCK_CLOSE)) && (b.None? || b == Some(STOCK_CLOSE)))
  {
  }

  /** Setting the same stock twice changes nothing the second time, and NULL and the close stock are one setting. */
  method SetStatusStockTwice(tab: MultiTab, stock: Option<string>)
    modifies tab
    ensures StockOrClose(tab.statusStock) == StockOrClose(stock)
    ensures tab.hasImage ==> tab.imageStock == StockOrClose(stock) || StockOrClose(old(tab.statusStock)) == StockOrClose(stock)
  {
    tab.SetStatusStock(stock);
    var s := tab.statusStock;
    var i := tab.imageStock;
    tab.SetStatusStock(stock);
    assert tab.statusStock == s && tab.imageStock == i;
  }

  class MultiWin {
    var tabs: seq<MultiTab>
    var currentTab: MultiTab?
    var ntabs: int
    var zoomIndex: int
    const wrapSwitchTab: bool
    const alwaysShowTabs: bool
    var tabsShown: bool
    var scrollBarPos: ScrollBarPosition
    /** Whether the previous-tab and move-left items are shaded, and the next-tab and move-right ones. */
    var previousShaded: bool
    var nextShaded: bool
    /** Set when the last tab has gone and the window is deleted. */
    var deleted: bool

    /** ntabs counts the tabs, which are all different; the zoom index is in the table; the current tab is one of them. */
    ghost predicate Valid()
      reads this
    {
      ntabs == |tabs|
      && (forall i, j :: 0 <= i < j < |tabs| ==> tabs[i] != tabs[j])
      && 0 <= zoomIndex < N_ZOOM_FACTORS
      && (currentTab != null ==> currentTab in tabs)
    }

    /** multi_win_new_blank's bookkeeping: no tabs, the scroll bar position not yet chosen, the requested zoom clamped. */
    constructor (zoom: int, wrapSwitchTab: bool, alwaysShowTabs: bool)
      ensures Valid() && tabs == [] && currentTab == null && scrollBarPos == ScrollBarQuery
      ensures zoomIndex == InitialZoom(zoom) && !deleted
      ensures this.wrapSwitchTab == wrapSwitchTab && this.alwaysShowTabs == alwaysShowTabs
    {
      tabs := [];
      currentTab := null;
      ntabs := 0;
      zoomIndex := InitialZoom(zoom);
      this.wrapSwitchTab := wrapSwitchTab;
      this.alwaysShowTabs := alwaysShowTabs;
      tabsShown := alwaysShowTabs;
      scrollBarPos := ScrollBarQuery;
      previousShaded := true;
      nextShaded := true;
      deleted := false;
    }

    /** multi_win_zoom_in_action: one step up unless at the largest; changed says the tabs were told. */
    method ZoomIn() returns (changed: bool)
      requires Valid()
      modifies this`zoomIndex
      ensures Valid()
      ensures changed <==> old(zoomIndex) < N_ZOOM_FACTORS - 1
      ensures zoomIndex == if changed then old(zoomIndex) + 1 else old(zoomIndex)
    {
      changed := zoomIndex < N_ZOOM_FACTORS - 1;
      if changed {
        zoomIndex := zoomIndex + 1;
      }
    }

    /** multi_win_zoom_out_action: one step down unless at the smallest. */
    method ZoomOut() returns (changed: bool)
      requires Valid()
      modifies this`zoomIndex
      ensures Valid()
      ensures changed <==> old(zoomIndex) > 0
      ensures zoomIndex == if changed then old(zoomIndex) - 1 else old(zoomIndex)
    {
      changed := zoomIndex > 0;
      if changed {
        zoomIndex := zoomIndex - 1;
      }
    }

    /** multi_win_zoom_norm_action: back to the normal index, telling the tabs only if it was elsewhere. */
    method ZoomNorm() returns (changed: bool)
      requires Valid()
      modifies this`zoomIndex
      ensures Valid() && zoomIndex == NORMAL_ZOOM_INDEX
      ensures changed <==> old(zoomIndex) != NORMAL_ZOOM_INDEX
    {
      changed := zoomIndex != NORMAL_ZOOM_INDEX;
      if changed {
        zoomIndex := NORMAL_ZOOM_INDEX;
      }
    }

    /** Previous/next items are shaded only with a single tab or without wrapping. */
    predicate OverrideShade()
      reads this
    {
      ntabs == 1 || !wrapSwitchTab
    }

    /** multi_win_at_first_tab: the current tab is first, or is not in the list at all. */
    predicate AtFirstTab()
      reads this
    {
      currentTab !in tabs || IndexOf(tabs, currentTab) == 0
    }

    /** multi_win_at_last_tab: the current tab is last, or is not in the list at all. */
    predicate AtLastTab()
      reads this
    {
      currentTab !in tabs || IndexOf(tabs, currentTab) == |tabs| - 1
    }

    /** multi_win_shade_menus_for_tabs: the two pairs of items are shaded by the rules above. */
    method ShadeMenusForTabs()
      modifies this`previousShaded, this`nextShaded
      ensures previousShaded == (OverrideShade() && AtFirstTab())
      ensures nextShaded == (OverrideShade() && AtLastTab())
    {
      previousShaded := OverrideShade() && AtFirstTab();
      nextShaded := OverrideShade() && AtLastTab();
    }

    /** With wrapping on and several tabs nothing is shaded; a single tab shades both directions. */
    lemma ShadeRules()
      requires Valid()
      ensures wrapSwitchTab && ntabs > 1 ==> !(OverrideShade() && AtFirstTab()) && !(OverrideShade() && AtLastTab())
      ensures ntabs == 1 ==> OverrideShade() && AtFirstTab() && AtLastTab()
    {
    }

    /**
     * multi_win_move_tab_by_one: the current tab moves dir places, wrapping
     * when that is on; nothing happens without a current tab or when the
     * target is out of range. The menus are shaded again after a move.
     */
    method MoveTabByOne(dir: int)
      requires Valid()
      modifies this`tabs, this`previousShaded, this`nextShaded
      ensures Valid() && currentTab == old(currentTab) && zoomIndex == old(zoomIndex) && ntabs == old(ntabs)
      ensures tabsShown == old(tabsShown) && scrollBarPos == old(scrollBarPos) && deleted == old(deleted)
      ensures old(currentTab) == null ==>
        tabs == old(tabs) && previousShaded == old(previousShaded) && nextShaded == old(nextShaded)
      ensures old(currentTab) != null ==>
        var k := IndexOf(old(tabs), old(currentTab));
        var target := MoveTarget(k, dir, old(ntabs), wrapSwitchTab);
        (target.None? ==>
           tabs == old(tabs) && previousShaded == old(previousShaded) && nextShaded == old(nextShaded))
        && (target.Some? ==>
              (tabs == MoveTo(old(tabs), k, target.value)
               && previousShaded == (OverrideShade() && AtFirstTab()) && nextShaded == (OverrideShade() && AtLastTab())))
    {
      if currentTab == null {
        return;
      }
      var k := IndexOf(tabs, currentTab);
      var pos := k + dir;
      if wrapSwitchTab {
        if pos >= ntabs {
          pos := 0;
        } else if pos < 0 {
          pos := ntabs - 1;
        }
      }
      if !(0 <= pos < ntabs) {
        return;
      }
      assert MoveTarget(k, dir, ntabs, wrapSwitchTab) == Some(pos);
      PlaceTab(k, pos);
      ShadeMenusForTabs();
    }

    /** g_list_remove then g_list_insert in multi_tab_move_to_position: the tab at k goes to pos, the others close up around it. */
    method PlaceTab(k: nat, pos: nat)
      requires Valid() && k < ntabs && pos < ntabs
      modifies this`tabs
      ensures Valid() && tabs == MoveTo(old(tabs), k, pos)
    {
      var moved := MoveTo(tabs, k, pos);
      MoveToInverse(tabs, k, pos);
      MovePreservesDistinct(tabs, k, pos);
      assert currentTab != null ==> currentTab in multiset(moved);
      tabs := moved;
    }

    /**
     * multi_win_notify_tab_removed: a tab not in the window is refused; else
     * it leaves the list (and stops being current), the count goes down, and
     * the result says whether that was the last tab and the window went.
     */
    method NotifyTabRemoved(tab: MultiTab) returns (destroyed: bool)
      requires Valid()
      modifies this`tabs, this`ntabs, this`currentTab, this`deleted, this`tabsShown
      modifies this`previousShaded, this`nextShaded
      ensures Valid() && zoomIndex == old(zoomIndex) && scrollBarPos == old(scrollBarPos)
      ensures tab !in old(tabs) ==>
        !destroyed && tabs == old(tabs) && ntabs == old(ntabs) && currentTab == old(currentTab)
        && deleted == old(deleted) && tabsShown == old(tabsShown)
        && previousShaded == old(previousShaded) && nextShaded == old(nextShaded)
      ensures tab in old(tabs) ==>
        var k := IndexOf(old(tabs), tab);
        tabs == old(tabs)[..k] + old(tabs)[k + 1..] && ntabs == old(ntabs) - 1
        && currentTab == (if old(currentTab) == tab then null else old(currentTab))
        && (destroyed <==> ntabs == 0)
        && (destroyed ==> deleted && tabsShown == old(tabsShown)
                          && previousShaded == old(previousShaded) && nextShaded == old(nextShaded))
        && (!destroyed ==> deleted == old(deleted))
        && (tabsShown == if ntabs == 1 && !alwaysShowTabs then false else old(tabsShown))
        && (!destroyed ==> previousShaded == (OverrideShade() && AtFirstTab()) && nextShaded == (OverrideShade() && AtLastTab()))
    {
      if tab !in tabs {
        return false;
      }
      DropTab(tab);
      if ntabs == 0 {
        deleted := true;
        return true;
      }
      if ntabs == 1 && !alwaysShowTabs {
        tabsShown := false;
      }
      ShadeMenusForTabs();
      return false;
    }

    /** The list part of multi_win_notify_tab_removed: the tab is unlinked and counted out, and is no longer current. */
    method DropTab(tab: MultiTab)
      requires Valid() && tab in tabs
      modifies this`tabs, this`ntabs, this`currentTab
      ensures Valid()
      ensures var k := IndexOf(old(tabs), tab);
        tabs == old(tabs)[..k] + old(tabs)[k + 1..] && ntabs == old(ntabs) - 1
      ensures currentTab == (if old(currentTab) == tab then null else old(currentTab))
    {
      var k := IndexOf(tabs, tab);
      if currentTab == tab {
        currentTab := null;
      } else if currentTab != null {
        DeleteKeepsOthers(tabs, k, currentTab);
      }
      DeletePreservesDistinct(tabs, k);
      tabs := Delete(tabs, k);
      ntabs := ntabs - 1;
    }

    /** multi_win_set_scroll_bar_position: the first real position given sticks; the result is the stored one. */
    method SetScrollBarPosition(newPos: ScrollBarPosition) returns (r: ScrollBarPosition)
      modifies this`scrollBarPos
      ensures old(scrollBarPos) == ScrollBarQuery ==> scrollBarPos == newPos
      ensures old(scrollBarPos) != ScrollBarQuery ==> scrollBarPos == old(scrollBarPos)
      ensures r == scrollBarPos
    {
      if scrollBarPos == ScrollBarQuery {
        scrollBarPos := newPos;
      }
      r := scrollBarPos;
    }
  }

  /** Moving keeps the tabs all different. */
  lemma MovePreservesDistinct<T>(s: seq<T>, k: nat, p: nat)
    requires k < |s| && p < |s| && forall i, j :: 0 <= i < j < |s| ==> s[i] != s[j]
    ensures forall i, j :: 0 <= i < j < |s| ==> MoveTo(s, k, p)[i] != MoveTo(s, k, p)[j]
  {
    var m := MoveTo(s, k, p);
    forall i, j | 0 <= i < j < |s|
      ensures m[i] != m[j]
    {
      MoveToSpec(s, k, p, i);
      MoveToSpec(s, k, p, j);
    }
  }

  /** g_list_delete_link on the tab list: the entry at k goes. */
  function Delete<T>(s: seq<T>, k: nat): (r: seq<T>)
    requires k < |s|
    ensures |r| == |s| - 1
  {
    s[..k] + s[k + 1..]
  }

  /** Deleting one entry keeps every other value that was there. */
  lemma DeleteKeepsOthers<T>(s: seq<T>, k: nat, x: T)
    requires k < |s| && x in s && x != s[k]
    ensures x in Delete(s, k)
  {
    var i :| 0 <= i < |s| && s[i] == x;
    assert Delete(s, k)[if i < k then i else i - 1] == x;
  }

  /** Deleting one entry keeps the others all different. */
  lemma DeletePreservesDistinct<T>(s: seq<T>, k: nat)
    requires k < |s| && forall i, j :: 0 <= i < j < |s| ==> s[i] != s[j]
    ensures forall i, j :: 0 <= i < j < |s| - 1 ==> Delete(s, k)[i] != Delete(s, k)[j]
  {
    var d := Delete(s, k);
    forall i, j | 0 <= i < j < |s| - 1
      ensures d[i] != d[j]
    {
      var i' := if i < k then i else i + 1;
      var j' := if j < k then j else j + 1;
      assert d[i] == s[i'] && d[j] == s[j'];
    }
  }

  /** Zooming in and then out from below the largest index comes back to where it started. */
  method ZoomInThenOut(win: MultiWin)
    requires win.Valid() && win.zoomIndex < N_ZOOM_FACTORS - 1
    modifies win
    ensures win.zoomIndex == old(win.zoomIndex)
  {
    var a := win.ZoomIn();
    var b := win.ZoomOut();
  }

  /** Whatever is asked, the zoom index stays inside the table. */
  method ZoomStaysInRange(win: MultiWin, steps: seq<int>)
    requires win.Valid()
    modifies win
    ensures win.Valid() && 0 <= win.zoomIndex < N_ZOOM_FACTORS
  {
    var i := 0;
    while i < |steps|
      invariant 0 <= i <= |steps| && win.Valid()
    {
      var changed;
      if steps[i] > 0 {
        changed := win.ZoomIn();
      } else if steps[i] < 0 {
        changed := win.ZoomOut();
      } else {
        changed := win.ZoomNorm();
      }
      i := i + 1;
    }
  }
}
