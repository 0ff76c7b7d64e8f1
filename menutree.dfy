/**
 * The bookkeeping of a terminal window's menu tree (src/menutree.c): the
 * list of tab items and their accelerator paths, the encodings submenu and
 * its count, and the switches that turn keyboard shortcuts off.
 */
module MenuTrees {
  import opened Wrappers

  /** The root of every accelerator path. */
  const ACCEL_PATH: string := "<roxterm>"
  /** The data stored on the "Default" encodings item in place of a name. */
  const ENCODING_NULL: string := "NULL"
  /** Only the first ten tabs get a Select_Tab shortcut. */
  const MAX_TAB_ACCELS: nat := 10

  /** The label text with every underscore removed, in order. */
  function Strip(s: string): string
  {
    if s == [] then [] else (if s[0] == '_' then [] else [s[0]]) + Strip(s[1..])
  }

  /** Stripping works one character at a time from the end too. */
  lemma {:induction false} StripAppend(s: string, c: char)
    ensures Strip(s + [c]) == Strip(s) + (if c == '_' then [] else [c])
  {
    if s == [] {
      assert s + [c] == [c];
    } else {
      assert (s + [c])[1..] == s[1..] + [c];
      StripAppend(s[1..], c);
    }
  }

  /** The result has no underscore, keeps every other character in order, and is the input itself exactly when the input has none. */
  lemma {:induction false} StripSpec(s: string)
    ensures '_' !in Strip(s)
    ensures Strip(s) == s <==> '_' !in s
    ensures Strip(Strip(s)) == Strip(s)
    ensures |Strip(s)| <= |s|
  {
    if s != [] {
      StripSpec(s[1..]);
      if s[0] == '_' {
        assert Strip(s) == Strip(s[1..]);
        assert Strip(s) != s by {
          assert |Strip(s)| < |s|;
        }
      } else {
        assert Strip(s) == [s[0]] + Strip(s[1..]);
        assert Strip(Strip(s)) == [s[0]] + Strip(Strip(s[1..])) by {
          assert Strip(s)[1..] == Strip(s[1..]);
        }
      }
    }
  }

  /** strip_underscore: copies every character but '_' into a buffer one longer than the input. */
  method StripUnderscore(input: string) returns (out: string)
    ensures out == Strip(input)
  {
    var buf := new char[|input| + 1];
    var n := 0;
    var m := 0;
    while n < |input|
      invariant 0 <= m <= n <= |input|
      invariant buf[..m] == Strip(input[..n])
    {
      StripAppend(input[..n], input[n]);
      assert input[..n + 1] == input[..n] + [input[n]];
      if input[n] != '_' {
        buf[m] := input[n];
        m := m + 1;
        assert buf[..m] == buf[..m - 1] + [input[n]];
      }
      n := n + 1;
    }
    buf[m] := 0 as char;
    assert input[..n] == input;
    out := buf[..m];
  }

  /** get_accel_path: the root, the shortcut scheme's index string and the branch, joined by '/'. */
  function AccelPath(index: string, leaf: string): string
  {
    ACCEL_PATH + "/" + index + "/" + leaf
  }

  /** "Tabs/Select_Tab_<n>" for a tab below ten. */
  function TabLeaf(tab: nat): string
    requires tab < MAX_TAB_ACCELS
  {
    "Tabs/Select_Tab_" + [('0' as int + tab) as char]
  }

  /**
   * The accelerator path menutree_set_accel_path_for_tab gives a tab below
   * ten: its Select_Tab path when tab shortcuts are on and there is not
   * exactly one tab, and none otherwise.
   */
  function TabAccel(tab: nat, ntabs: int, disableTab: bool, index: string): (r: Option<string>)
    requires tab < MAX_TAB_ACCELS
    ensures r.Some? <==> !disableTab && ntabs != 1
    ensures r.Some? ==> r.value == AccelPath(index, TabLeaf(tab))
  {
    if !disableTab && ntabs != 1 then Some(AccelPath(index, TabLeaf(tab))) else None
  }

  /** A tab's path lies under the shortcut scheme's index and ends in the tab's digit. */
  lemma TabAccelShape(tab: nat, ntabs: int, disableTab: bool, index: string)
    requires tab < MAX_TAB_ACCELS
    ensures var r := TabAccel(tab, ntabs, disableTab, index);
      r.Some? ==> ACCEL_PATH + "/" + index + "/" <= r.value && r.value[|r.value| - 1] == ('0' as int + tab) as char
  {
  }

  /** Different tabs below ten get different paths. */
  lemma TabAccelsDistinct(i: nat, j: nat, ntabs: int, index: string)
    requires i < MAX_TAB_ACCELS && j < MAX_TAB_ACCELS && i != j && ntabs != 1
    ensures TabAccel(i, ntabs, false, index) != TabAccel(j, ntabs, false, index)
  {
    var pi := AccelPath(index, TabLeaf(i));
    var pj := AccelPath(index, TabLeaf(j));
    assert pi[|pi| - 1] != pj[|pj| - 1];
  }

  /** Where g_list_insert puts an item: at the position, or at the end for a negative or too large one. */
  function InsertAt(len: nat, position: int): (r: nat)
    ensures r <= len
    ensures 0 <= position <= len ==> r == position
    ensures position < 0 || position > len ==> r == len
  {
    if position < 0 || position > len then len else position
  }

  /** g_list_remove: the list without the first occurrence of x. */
  function RemoveFirst<T(==)>(s: seq<T>, x: T): (r: seq<T>)
    ensures x in s ==> |r| == |s| - 1
    ensures x !in s ==> r == s
  {
    if s == [] then []
    else if s[0] == x then s[1..]
    else [s[0]] + RemoveFirst(s[1..], x)
  }

  /** Removing an item that was inserted into a list without it gives back the list. */
  lemma {:induction false} RemoveInserted<T>(s: seq<T>, x: T, p: nat)
    requires x !in s && p <= |s|
    ensures RemoveFirst(s[..p] + [x] + s[p..], x) == s
  {
    if p == 0 {
      assert s[..0] + [x] + s[0..] == [x] + s;
    } else {
      assert (s[..p] + [x] + s[p..])[0] == s[0];
      assert (s[..p] + [x] + s[p..])[1..] == s[1..][..p - 1] + [x] + s[1..][p - 1..];
      RemoveInserted(s[1..], x, p - 1);
      assert [s[0]] + s[1..] == s;
    }
  }

  /** Removing the first occurrence of an item that occurs once leaves every other item. */
  lemma {:induction false} RemoveFirstKeepsOthers<T>(s: seq<T>, x: T, y: T)
    requires y != x
    ensures y in RemoveFirst(s, x) <==> y in s
  {
    if s != [] && s[0] != x {
      RemoveFirstKeepsOthers(s[1..], x, y);
      assert s == [s[0]] + s[1..];
    } else if s != [] {
      assert s == [s[0]] + s[1..];
    }
  }

  /** A GtkMenuItem of the Tabs menu and the accelerator path set on it. */
  class MenuItem {
    const title: string
    var accelPath: Option<string>

    constructor (title: string)
      ensures this.title == title && accelPath == None
    {
      this.title := title;
      accelPath := None;
    }
  }

  /** A menu label as shown: plain text, or text with its underscore mnemonics active. */
  datatype Label = Plain(text: string) | Mnemonic(text: string)

  /** A child of the encodings submenu: an item carrying the encoding it selects, or the separator. */
  datatype EncodingChild = EncodingItem(data: string) | SeparatorItem

  /** menutree_encoding_from_widget: the "NULL" marker stands for no encoding, anything else for itself. */
  function EncodingFromWidget(stored: string): (r: Option<string>)
    ensures r == None <==> stored == ENCODING_NULL
    ensures r.Some? ==> r.value == stored
    ensures r != Some(ENCODING_NULL)
  {
    if stored == ENCODING_NULL then None else Some(stored)
  }

  /**
   * The "Default" item, which stores the marker, reads back as no encoding;
   * an item added for any other encoding reads back as that encoding.
   */
  lemma EncodingItemReadsBack(e: string)
    ensures ChildEncoding(EncodingItem(ENCODING_NULL)) == None
    ensures e != ENCODING_NULL ==> ChildEncoding(EncodingItem(e)) == Some(e)
  {
  }

  /** The encoding a child selects, if it is an item whose data is not the marker. */
  function ChildEncoding(c: EncodingChild): Option<string>
  {
    match c
    case EncodingItem(d) => EncodingFromWidget(d)
    case SeparatorItem => None
  }

  /** The first child from index k on that selects encoding e. */
  function FindFrom(children: seq<EncodingChild>, e: string, k: nat): (r: Option<nat>)
    decreases |children| - k
    ensures r.Some? ==>
      (k <= r.value < |children| && ChildEncoding(children[r.value]) == Some(e)
       && forall j :: k <= j < r.value ==> ChildEncoding(children[j]) != Some(e))
    ensures r.None? ==> forall j :: k <= j < |children| ==> ChildEncoding(children[j]) != Some(e)
  {
    if k >= |children| then None
    else if ChildEncoding(children[k]) == Some(e) then Some(k)
    else FindFrom(children, e, k + 1)
  }

  class MenuTree {
    /** The tab items, in menu order. */
    var tabs: seq<MenuItem>
    var ntabs: int
    /** shortcuts_get_index_str of the current shortcut scheme. */
    var shortcutsIndex: string
    var disableShortcuts: bool
    var disableTabShortcuts: bool
    /** menutree_labels: the mnemonic label of each item id, if it has one. */
    const labels: seq<Option<string>>
    /** The label widget of each item id, if the item exists and its child is a label. */
    var itemLabels: seq<Option<Label>>
    /** The encodings submenu's children, or None when there is no submenu. */
    var encodings: Option<seq<EncodingChild>>
    var nEncodings: int
    /** Whether the Character Encoding item is sensitive. */
    var encodingSensitive: bool

    /**
     * ntabs counts the tab items, which are all different; every label id
     * has a widget slot; an encodings submenu holds "Default", the
     * separator and one child per counted encoding (fewer once "Default"
     * itself has been removed, which takes the count below 0).
     */
    ghost predicate Valid()
      reads this
    {
      ntabs == |tabs|
      && (forall i, j :: 0 <= i < j < |tabs| ==> tabs[i] != tabs[j])
      && |itemLabels| == |labels|
      && (encodings.Some? ==> |encodings.value| == nEncodings + 2)
    }

    /** Every tab below ten carries the accelerator path the current settings call for. */
    ghost predicate TabAccelsCurrent()
      reads this, set t | t in tabs
    {
      forall i :: 0 <= i < |tabs| && i < MAX_TAB_ACCELS ==>
        tabs[i].accelPath == TabAccel(i, ntabs, disableTabShortcuts, shortcutsIndex)
    }

    /** menutree_new_common's bookkeeping: no tabs, no encodings submenu. */
    constructor (labels: seq<Option<string>>, itemLabels: seq<Option<Label>>, index: string,
                 disableShortcuts: bool, disableTabShortcuts: bool)
      requires |itemLabels| == |labels|
      ensures Valid() && tabs == [] && encodings == None && nEncodings == 0
      ensures this.labels == labels && this.itemLabels == itemLabels && shortcutsIndex == index
      ensures this.disableShortcuts == disableShortcuts && this.disableTabShortcuts == disableTabShortcuts
    {
      tabs := [];
      ntabs := 0;
      shortcutsIndex := index;
      this.disableShortcuts := disableShortcuts;
      this.disableTabShortcuts := disableTabShortcuts;
      this.labels := labels;
      this.itemLabels := itemLabels;
      encodings := None;
      nEncodings := 0;
      encodingSensitive := true;
    }

    /** menutree_set_accel_path_for_tab: tabs from ten on are left alone. */
    method SetAccelPathForTab(tab: nat)
      requires Valid() && tab < |tabs|
      modifies tabs[tab]
      ensures tab < MAX_TAB_ACCELS ==> tabs[tab].accelPath == TabAccel(tab, ntabs, disableTabShortcuts, shortcutsIndex)
      ensures tab >= MAX_TAB_ACCELS ==> tabs[tab].accelPath == old(tabs[tab].accelPath)
    {
      if tabs == [] || tab >= MAX_TAB_ACCELS {
        return;
      }
      var fullPath: Option<string> := None;
      if !disableTabShortcuts && ntabs != 1 {
        fullPath := Some(AccelPath(shortcutsIndex, TabLeaf(tab)));
      }
      tabs[tab].accelPath := fullPath;
    }

    /** menutree_apply_tab_shortcuts: every tab's path is set again. */
    method ApplyTabShortcuts()
      requires Valid()
      modifies set t | t in tabs
      ensures TabAccelsCurrent()
      ensures forall i :: MAX_TAB_ACCELS <= i < |tabs| ==> tabs[i].accelPath == old(tabs[i].accelPath)
    {
      var n := 0;
      while n < ntabs
        invariant 0 <= n <= ntabs
        invariant forall i :: 0 <= i < n && i < MAX_TAB_ACCELS ==>
          tabs[i].accelPath == TabAccel(i, ntabs, disableTabShortcuts, shortcutsIndex)
        invariant forall i :: 0 <= i < |tabs| && (n <= i || MAX_TAB_ACCELS <= i) ==>
          tabs[i].accelPath == old(tabs[i].accelPath)
      {
        SetAccelPathForTab(n);
        n := n + 1;
      }
    }

    /**
     * menutree_add_tab_at_position: a new item goes in at the position (at
     * the end for -1), the count goes up, and the tab paths are redone.
     */
    method AddTabAtPosition(title: string, position: int) returns (item: MenuItem)
      requires Valid()
      modifies this`tabs, this`ntabs, set t | t in tabs
      ensures Valid() && TabAccelsCurrent() && fresh(item) && item.title == title
      ensures var p := InsertAt(|old(tabs)|, position);
        tabs == old(tabs)[..p] + [item] + old(tabs)[p..]
      ensures ntabs == old(ntabs) + 1
      ensures forall i :: MAX_TAB_ACCELS <= i < |tabs| && tabs[i] in old(tabs) ==>
        tabs[i].accelPath == (var t := tabs[i]; old(t.accelPath))
      ensures InsertAt(|old(tabs)|, position) >= MAX_TAB_ACCELS ==> item.accelPath == None
      ensures disableTabShortcuts == old(disableTabShortcuts) && shortcutsIndex == old(shortcutsIndex)
      ensures disableShortcuts == old(disableShortcuts) && encodingSensitive == old(encodingSensitive)
      ensures encodings == old(encodings) && nEncodings == old(nEncodings) && itemLabels == old(itemLabels)
    {
      item := new MenuItem(title);
      var p := InsertAt(|tabs|, position);
      tabs := tabs[..p] + [item] + tabs[p..];
      ntabs := ntabs + 1;
      assert forall i :: 0 <= i < |tabs| ==> tabs[i] == item || tabs[i] in old(tabs);
      ApplyTabShortcuts();
    }

    /** menutree_remove_tab: the item leaves the list, the count goes down, and the tab paths are redone. */
    method RemoveTab(item: MenuItem)
      requires Valid() && item in tabs
      modifies this`tabs, this`ntabs, set t | t in tabs
      ensures Valid() && TabAccelsCurrent()
      ensures tabs == RemoveFirst(old(tabs), item) && ntabs == old(ntabs) - 1
      ensures forall i :: MAX_TAB_ACCELS <= i < |tabs| && tabs[i] in old(tabs) ==>
        tabs[i].accelPath == (var t := tabs[i]; old(t.accelPath))
      ensures disableTabShortcuts == old(disableTabShortcuts) && shortcutsIndex == old(shortcutsIndex)
      ensures disableShortcuts == old(disableShortcuts) && encodingSensitive == old(encodingSensitive)
      ensures encodings == old(encodings) && nEncodings == old(nEncodings) && itemLabels == old(itemLabels)
    {
      var k :| 0 <= k < |tabs| && tabs[k] == item;
      assert tabs[k] !in tabs[..k];
      RemoveFirstIndex(tabs, k);
      RemoveTabAt(k);
    }

    /** The tab at index k leaves the list, the count goes down, and the tab paths are redone. */
    method RemoveTabAt(k: nat)
      requires Valid() && k < |tabs|
      modifies this`tabs, this`ntabs, set t | t in tabs
      ensures Valid() && TabAccelsCurrent()
      ensures tabs == old(tabs[..k] + tabs[k + 1..]) && ntabs == old(ntabs) - 1
      ensures forall i :: MAX_TAB_ACCELS <= i < |tabs| ==> tabs[i].accelPath == (var t := tabs[i]; old(t.accelPath))
    {
      RemoveAtKeepsDistinct(tabs, k);
      tabs := tabs[..k] + tabs[k + 1..];
      ntabs := ntabs - 1;
      ApplyTabShortcuts();
    }

    /** The tab-count part of create_encodings_menu: a submenu with "Default" and the separator, none counted. */
    method CreateEncodingsMenu()
      requires Valid()
      modifies this`encodings, this`nEncodings, this`encodingSensitive
      ensures Valid() && encodings == Some([EncodingItem(ENCODING_NULL), SeparatorItem]) && nEncodings == 0
      ensures encodingSensitive
      ensures tabs == old(tabs) && ntabs == old(ntabs) && itemLabels == old(itemLabels)
      ensures disableTabShortcuts == old(disableTabShortcuts) && shortcutsIndex == old(shortcutsIndex)
      ensures disableShortcuts == old(disableShortcuts)
    {
      encodings := Some([EncodingItem(ENCODING_NULL), SeparatorItem]);
      nEncodings := 0;
      encodingSensitive := true;
    }

    /** add_encoding: an item is appended and counted. */
    method AddEncodingItem(data: string)
      requires Valid() && encodings.Some?
      modifies this`encodings, this`nEncodings
      ensures Valid() && encodings == Some(old(encodings.value) + [EncodingItem(data)])
      ensures nEncodings == old(nEncodings) + 1 && encodingSensitive == old(encodingSensitive)
      ensures tabs == old(tabs) && ntabs == old(ntabs) && itemLabels == old(itemLabels)
      ensures disableTabShortcuts == old(disableTabShortcuts) && shortcutsIndex == old(shortcutsIndex)
      ensures disableShortcuts == old(disableShortcuts)
    {
      encodings := Some(encodings.value + [EncodingItem(data)]);
      nEncodings := nEncodings + 1;
    }

    /**
     * menutree_build_encodings_menu: with at least two names (the first is
     * "Default" and skipped) a submenu lists the others and counts them;
     * otherwise the item is made insensitive. None stands for a NULL list.
     */
    method BuildEncodingsMenu(names: Option<seq<string>>)
      requires Valid() && (names.Some? ==> |names.value| >= 1)
      modifies this`encodings, this`nEncodings, this`encodingSensitive
      ensures Valid()
      ensures names.Some? && |names.value| >= 2 ==>
        encodings == Some([EncodingItem(ENCODING_NULL), SeparatorItem] + EncodingItems(names.value[1..]))
        && nEncodings == |names.value| - 1 && encodingSensitive
      ensures !(names.Some? && |names.value| >= 2) ==>
        !encodingSensitive && encodings == old(encodings) && nEncodings == old(nEncodings)
      ensures tabs == old(tabs) && ntabs == old(ntabs) && itemLabels == old(itemLabels)
      ensures disableTabShortcuts == old(disableTabShortcuts) && shortcutsIndex == old(shortcutsIndex)
      ensures disableShortcuts == old(disableShortcuts)
    {
      if names.Some? && |names.value| >= 2 {
        var l := names.value;
        CreateEncodingsMenu();
        var n := 1;
        assert EncodingItems(l[1..n]) == [];
        assert [EncodingItem(ENCODING_NULL), SeparatorItem] + EncodingItems(l[1..n])
          == [EncodingItem(ENCODING_NULL), SeparatorItem];
        while n < |l|
          invariant 1 <= n <= |l|
          invariant Valid() && encodingSensitive
          invariant encodings == Some([EncodingItem(ENCODING_NULL), SeparatorItem] + EncodingItems(l[1..n]))
          invariant nEncodings == n - 1
          invariant tabs == old(tabs) && ntabs == old(ntabs) && itemLabels == old(itemLabels)
        {
          AddEncodingItem(l[n]);
          EncodingItemsAppend(l[1..n], l[n]);
          assert l[1..n + 1] == l[1..n] + [l[n]];
          assert [EncodingItem(ENCODING_NULL), SeparatorItem] + EncodingItems(l[1..n + 1])
            == [EncodingItem(ENCODING_NULL), SeparatorItem] + EncodingItems(l[1..n]) + [EncodingItem(l[n])];
          n := n + 1;
        }
        assert l[1..n] == names.value[1..];
      } else {
        encodingSensitive := false;
      }
    }

    /** menutree_add_encoding: the submenu is created if there is none, then the encoding is added and counted. */
    method AddEncoding(e: string)
      requires Valid()
      modifies this`encodings, this`nEncodings, this`encodingSensitive
      ensures Valid()
      ensures old(encodings).Some? ==>
        (encodings == Some(old(encodings.value) + [EncodingItem(e)]) && nEncodings == old(nEncodings) + 1
         && encodingSensitive == old(encodingSensitive))
      ensures old(encodings).None? ==>
        (encodings == Some([EncodingItem(ENCODING_NULL), SeparatorItem, EncodingItem(e)])
         && nEncodings == 1 && encodingSensitive)
      ensures tabs == old(tabs) && ntabs == old(ntabs) && itemLabels == old(itemLabels)
      ensures disableTabShortcuts == old(disableTabShortcuts) && shortcutsIndex == old(shortcutsIndex)
      ensures disableShortcuts == old(disableShortcuts)
    {
      if encodings.None? {
        CreateEncodingsMenu();
      }
      AddEncodingItem(e);
      assert [EncodingItem(ENCODING_NULL), SeparatorItem] + [EncodingItem(e)]
        == [EncodingItem(ENCODING_NULL), SeparatorItem, EncodingItem(e)];
    }

    /**
     * menutree_find_encoding: the position of the child selecting the
     * encoding, skipping the separator at 1; no encoding means "Default"
     * at 0; None without a submenu or when nothing matches.
     */
    function FindEncoding(e: Option<string>): (r: Option<nat>)
      requires Valid() && (encodings.Some? && e.None? ==> |encodings.value| > 0)
      reads this
      ensures r.Some? ==> encodings.Some? && r.value < |encodings.value|
      ensures e.None? ==> r == (if encodings.Some? then Some(0) else None)
      ensures e.Some? && r.Some? ==>
        (r.value >= 2 && ChildEncoding(encodings.value[r.value]) == e
         && forall j :: 2 <= j < r.value ==> ChildEncoding(encodings.value[j]) != e)
      ensures e.Some? && r.None? && encodings.Some? ==>
        forall j :: 2 <= j < |encodings.value| ==> ChildEncoding(encodings.value[j]) != e
    {
      if encodings.None? then None
      else if e.None? then Some(0)
      else FindFrom(encodings.value, e.value, 2)
    }

    /**
     * menutree_remove_encoding: a found child is removed and the count goes
     * down; at 0 the submenu goes and the item becomes insensitive.
     */
    method RemoveEncoding(e: Option<string>)
      requires Valid() && (encodings.Some? && e.None? ==> |encodings.value| > 0)
      modifies this`encodings, this`nEncodings, this`encodingSensitive
      ensures Valid()
      ensures FindEncodingIn(old(encodings), e).None? ==>
        encodings == old(encodings) && nEncodings == old(nEncodings) && encodingSensitive == old(encodingSensitive)
      ensures FindEncodingIn(old(encodings), e).Some? && old(nEncodings) == 1 ==>
        encodings == None && nEncodings == 0 && !encodingSensitive
      ensures FindEncodingIn(old(encodings), e).Some? && old(nEncodings) != 1 ==>
        var p := FindEncodingIn(old(encodings), e).value;
        encodings == Some(old(encodings.value)[..p] + old(encodings.value)[p + 1..])
        && nEncodings == old(nEncodings) - 1 && encodingSensitive == old(encodingSensitive)
      ensures tabs == old(tabs) && ntabs == old(ntabs) && itemLabels == old(itemLabels)
      ensures disableTabShortcuts == old(disableTabShortcuts) && shortcutsIndex == old(shortcutsIndex)
      ensures disableShortcuts == old(disableShortcuts)
    {
      var pos := FindEncoding(e);
      if pos.Some? {
        var c := encodings.value;
        encodings := Some(c[..pos.value] + c[pos.value + 1..]);
        nEncodings := nEncodings - 1;
        if nEncodings == 0 {
          encodings := None;
          encodingSensitive := false;
        }
      }
    }

    /**
     * menutree_disable_shortcuts: nothing happens when the flag already has
     * the value; otherwise every labelled item is relabelled, without
     * underscores when shortcuts are disabled and with mnemonics otherwise.
     */
    method DisableShortcuts(disable: bool)
      requires Valid()
      modifies this`disableShortcuts, this`itemLabels
      ensures Valid() && disableShortcuts == disable
      ensures old(disableShortcuts) == disable ==> itemLabels == old(itemLabels)
      ensures old(disableShortcuts) != disable ==>
        forall n :: 0 <= n < |labels| ==> itemLabels[n] == Relabel(old(itemLabels[n]), labels[n], disable)
      ensures tabs == old(tabs) && ntabs == old(ntabs) && encodings == old(encodings) && nEncodings == old(nEncodings)
      ensures disableTabShortcuts == old(disableTabShortcuts) && shortcutsIndex == old(shortcutsIndex)
      ensures encodingSensitive == old(encodingSensitive)
    {
      if disableShortcuts == disable {
        return;
      }
      disableShortcuts := disable;
      var n := 0;
      while n < |labels|
        invariant 0 <= n <= |labels| && Valid() && disableShortcuts == disable
        invariant forall k :: 0 <= k < n ==> itemLabels[k] == Relabel(old(itemLabels[k]), labels[k], disable)
        invariant forall k :: n <= k < |labels| ==> itemLabels[k] == old(itemLabels[k])
        invariant tabs == old(tabs) && ntabs == old(ntabs) && encodings == old(encodings) && nEncodings == old(nEncodings)
      {
        if itemLabels[n].Some? && labels[n].Some? {
          if disable {
            var stripped := StripUnderscore(labels[n].value);
            itemLabels := itemLabels[n := Some(Plain(stripped))];
          } else {
            itemLabels := itemLabels[n := Some(Mnemonic(labels[n].value))];
          }
        }
        n := n + 1;
      }
    }

    /** menutree_disable_tab_shortcuts: nothing happens when the flag already has the value; otherwise the tab paths are redone. */
    method DisableTabShortcuts(disable: bool)
      requires Valid()
      modifies this`disableTabShortcuts, set t | t in tabs
      ensures Valid() && disableTabShortcuts == disable && tabs == old(tabs) && ntabs == old(ntabs)
      ensures shortcutsIndex == old(shortcutsIndex) && disableShortcuts == old(disableShortcuts)
      ensures itemLabels == old(itemLabels) && encodings == old(encodings) && nEncodings == old(nEncodings)
      ensures encodingSensitive == old(encodingSensitive)
      ensures old(disableTabShortcuts) == disable ==> forall i :: 0 <= i < |tabs| ==> tabs[i].accelPath == old(tabs[i].accelPath)
      ensures old(disableTabShortcuts) != disable ==> TabAccelsCurrent()
      ensures forall i :: MAX_TAB_ACCELS <= i < |tabs| ==> tabs[i].accelPath == old(tabs[i].accelPath)
    {
      if disableTabShortcuts == disable {
        return;
      }
      disableTabShortcuts := disable;
      ApplyTabShortcuts();
    }
  }

  /** FindEncoding on a given submenu, for stating what the old submenu held. */
  function FindEncodingIn(encodings: Option<seq<EncodingChild>>, e: Option<string>): Option<nat>
  {
    if encodings.None? then None
    else if e.None? then (if |encodings.value| > 0 then Some(0) else None)
    else FindFrom(encodings.value, e.value, 2)
  }

  /** The items added for a list of encoding names. */
  function EncodingItems(names: seq<string>): (r: seq<EncodingChild>)
    ensures |r| == |names|
    ensures forall i :: 0 <= i < |names| ==> r[i] == EncodingItem(names[i])
  {
    if names == [] then [] else [EncodingItem(names[0])] + EncodingItems(names[1..])
  }

  lemma EncodingItemsAppend(names: seq<string>, n: string)
    ensures EncodingItems(names + [n]) == EncodingItems(names) + [EncodingItem(n)]
  {
    assert |EncodingItems(names + [n])| == |EncodingItems(names) + [EncodingItem(n)]|;
  }

  /** What menutree_disable_shortcuts does to one item's label. */
  function Relabel(shown: Option<Label>, mnemonic: Option<string>, disable: bool): (r: Option<Label>)
    ensures shown.None? || mnemonic.None? ==> r == shown
    ensures shown.Some? && mnemonic.Some? && disable ==> r == Some(Plain(Strip(mnemonic.value)))
    ensures shown.Some? && mnemonic.Some? && !disable ==> r == Some(Mnemonic(mnemonic.value))
    ensures disable && r != shown ==> r.Some? && r.value.Plain? && '_' !in r.value.text
  {
    StripSpec(if mnemonic.Some? then mnemonic.value else []);
    if shown.Some? && mnemonic.Some? then
      Some(if disable then Plain(Strip(mnemonic.value)) else Mnemonic(mnemonic.value))
    else shown
  }

  /**
   * Disabling shortcuts and enabling them again gives every item the label
   * enabling alone gives it, and relabelling twice with the same flag is
   * relabelling once.
   */
  lemma RelabelRestores(shown: Option<Label>, mnemonic: Option<string>, disable: bool)
    ensures Relabel(Relabel(shown, mnemonic, true), mnemonic, false) == Relabel(shown, mnemonic, false)
    ensures Relabel(Relabel(shown, mnemonic, disable), mnemonic, disable) == Relabel(shown, mnemonic, disable)
  {
  }

  /** Removing one element of a sequence without repeats leaves a sequence without repeats, of elements it had. */
  lemma RemoveAtKeepsDistinct<T>(s: seq<T>, k: nat)
    requires k < |s| && forall i, j :: 0 <= i < j < |s| ==> s[i] != s[j]
    ensures var r := s[..k] + s[k + 1..];
      (forall i, j :: 0 <= i < j < |r| ==> r[i] != r[j]) && forall x :: x in r ==> x in s
  {
    var r := s[..k] + s[k + 1..];
    assert forall i :: 0 <= i < |r| ==> r[i] == s[if i < k then i else i + 1];
  }

  /** Removing the first occurrence of the item at k, when it does not occur before k, removes index k. */
  lemma {:induction false} RemoveFirstIndex<T>(s: seq<T>, k: nat)
    requires k < |s| && s[k] !in s[..k]
    ensures RemoveFirst(s, s[k]) == s[..k] + s[k + 1..]
  {
    if k > 0 {
      assert s[0] != s[k] by {
        assert s[0] in s[..k];
      }
      var t := s[1..];
      assert t[k - 1] == s[k];
      assert t[..k - 1] == s[1..k];
      assert t[k - 1] !in t[..k - 1] by {
        assert forall x :: x in s[1..k] ==> x in s[..k];
      }
      RemoveFirstIndex(t, k - 1);
      assert t[k..] == s[k + 1..];
      assert s[..k] == [s[0]] + s[1..k];
    }
  }

  /** Disabling shortcuts twice with the same value is the same as once. */
  method DisableShortcutsIdempotent(tree: MenuTree, disable: bool)
    requires tree.Valid()
    modifies tree
    ensures tree.disableShortcuts == disable
    ensures old(tree.disableShortcuts) == disable ==> tree.itemLabels == old(tree.itemLabels)
  {
    tree.DisableShortcuts(disable);
    var once := tree.itemLabels;
    tree.DisableShortcuts(disable);
    assert tree.itemLabels == once;
  }

  /** Adding a tab and removing the same item gives back the tab list and count. */
  method AddThenRemoveTab(tree: MenuTree, title: string, position: int)
    requires tree.Valid()
    modifies tree, set t | t in tree.tabs
    ensures tree.Valid() && tree.TabAccelsCurrent()
    ensures tree.tabs == old(tree.tabs) && tree.ntabs == old(tree.ntabs)
  {
    var item := tree.AddTabAtPosition(title, position);
    var p := InsertAt(|old(tree.tabs)|, position);
    assert item !in old(tree.tabs);
    RemoveInserted(old(tree.tabs), item, p);
    tree.RemoveTab(item);
  }
}
