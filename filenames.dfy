/**
 * File names as GLib builds and splits them: g_build_filename joins two
 * elements with one separator, and a leafname is what follows the last
 * separator.
 */
module FileNames {
  import opened Wrappers
  import opened CStrings

  const Separator: char := '/'

  /** s without the separators it ends with. */
  function TrimTrailing(s: string): (r: string)
    ensures |r| <= |s| && r == s[..|r|]
    ensures r == [] || r[|r| - 1] != Separator
  {
    if s != [] && s[|s| - 1] == Separator then TrimTrailing(s[..|s| - 1]) else s
  }

  /** s without the separators it starts with. */
  function TrimLeading(s: string): (r: string)
    ensures |r| <= |s| && r == s[|s| - |r|..]
    ensures r == [] || r[0] != Separator
  {
    if s != [] && s[0] == Separator then TrimLeading(s[1..]) else s
  }

  /**
   * s is made of separators only (the empty string included): trimming
   * the separators it ends with leaves nothing.
   */
  predicate AllSeparators(s: string)
  {
    TrimTrailing(s) == []
  }

  /** What TrimTrailing cuts off is separators. */
  lemma {:induction false} TrimTrailingCutsSeparators(s: string)
    ensures forall i :: |TrimTrailing(s)| <= i < |s| ==> s[i] == Separator
    decreases |s|
  {
    if s != [] && s[|s| - 1] == Separator {
      TrimTrailingCutsSeparators(s[..|s| - 1]);
    }
  }

  /** What TrimLeading cuts off is separators. */
  lemma {:induction false} TrimLeadingCutsSeparators(s: string)
    ensures forall i :: 0 <= i < |s| - |TrimLeading(s)| ==> s[i] == Separator
    decreases |s|
  {
    if s != [] && s[0] == Separator {
      TrimLeadingCutsSeparators(s[1..]);
    }
  }

  /** AllSeparators holds exactly of the strings whose every character is a separator. */
  lemma {:induction false} AllSeparatorsChars(s: string)
    ensures AllSeparators(s) <==> forall i :: 0 <= i < |s| ==> s[i] == Separator
    decreases |s|
  {
    TrimTrailingCutsSeparators(s);
    if s != [] {
      AllSeparatorsChars(s[..|s| - 1]);
    }
  }

  /** A string of separators only trims to nothing from the front as well. */
  lemma {:induction false} TrimOfSeparators(s: string)
    requires AllSeparators(s)
    ensures TrimLeading(s) == []
    decreases |s|
  {
    if s != [] {
      AllSeparatorsChars(s);
      AllSeparatorsChars(s[1..]);
      TrimOfSeparators(s[1..]);
    }
  }

  /**
   * g_build_filename(a, b, NULL), by g_build_path's rules: an empty element
   * is skipped; the first element keeps its leading separators and the last
   * its trailing ones; where two elements with text meet, their separators
   * collapse into one; an element made only of separators adds none of its
   * own between the others, but the leading separators of the first and
   * the trailing ones of the last are still kept.
   */
  function BuildFilename(a: string, b: string): (r: string)
    ensures a == [] ==> r == b
    ensures b == [] ==> r == a
  {
    if a == [] then b
    else if b == [] then a
    else if AllSeparators(a) && AllSeparators(b) then a + b
    else if AllSeparators(a) then a + TrimLeading(b)
    else if AllSeparators(b) then TrimTrailing(a) + b
    else TrimTrailing(a) + [Separator] + TrimLeading(b)
  }

  /**
   * The built name starts with the first element up to its trailing
   * separators and ends with the second after its leading ones.
   */
  lemma BuildFilenameEnds(a: string, b: string)
    ensures TrimTrailing(a) <= BuildFilename(a, b)
    ensures var r := BuildFilename(a, b);
      |TrimLeading(b)| <= |r| && r[|r| - |TrimLeading(b)|..] == TrimLeading(b)
  {
    var r, t, l := BuildFilename(a, b), TrimTrailing(a), TrimLeading(b);
    if a == [] || b == [] {
    } else if AllSeparators(a) && AllSeparators(b) {
      TrimOfSeparators(b);
    } else if AllSeparators(a) {
      assert r == a + l;
    } else if AllSeparators(b) {
      TrimOfSeparators(b);
      assert r == t + b;
    } else {
      assert r == t + [Separator] + l;
    }
  }

  /** The last component of a file name: after the last separator, or the whole name. */
  function Leafname(name: string): (r: string)
    ensures Separator !in r
    ensures |r| <= |name| && r == name[|name| - |r|..]
    ensures Separator in name <==> |r| < |name|
    ensures |r| < |name| ==> name[|name| - |r| - 1] == Separator
  {
    match StrRChr(name, Separator)
    case None => name
    case Some(slash) => name[slash + 1..]
  }

  /**
   * A leafname is the only suffix that has no separator and is either the
   * whole name or preceded by one.
   */
  lemma LeafnameUnique(name: string, r: string)
    requires Separator !in r && |r| <= |name| && r == name[|name| - |r|..]
    requires |r| < |name| ==> name[|name| - |r| - 1] == Separator
    ensures Leafname(name) == r
  {
  }

  /**
   * Text put before a name does not change its leafname, when the name has
   * a separator of its own or the text ends in one.
   */
  lemma {:induction false} LeafnameAppend(s: string, t: string)
    requires Separator in t || (s != [] && s[|s| - 1] == Separator)
    ensures Leafname(s + t) == Leafname(t)
  {
    var st := s + t;
    var leaf := Leafname(t);
    assert st[|st| - |leaf|..] == leaf;
    if |leaf| < |t| {
      assert st[|st| - |leaf| - 1] == t[|t| - |leaf| - 1];
    } else {
      assert st[|st| - |leaf| - 1] == s[|s| - 1];
    }
    LeafnameUnique(st, leaf);
  }

  /**
   * The components of a path: its non-empty runs of characters between
   * separators, in order.
   */
  function Components(s: string): seq<string>
    decreases |s|
  {
    if s == [] then []
    else if s[|s| - 1] == Separator then Components(s[..|s| - 1])
    else
      var leaf := Leafname(s);
      Components(s[..|s| - |leaf|]) + [leaf]
  }

  /** Every component is non-empty and holds no separator. */
  lemma {:induction false} ComponentsArePlain(s: string)
    ensures forall c :: c in Components(s) ==> c != [] && Separator !in c
    decreases |s|
  {
    if s == [] {
    } else if s[|s| - 1] == Separator {
      ComponentsArePlain(s[..|s| - 1]);
    } else {
      ComponentsArePlain(s[..|s| - |Leafname(s)|]);
    }
  }

  /** A path ending in a separator has the components of the path without it. */
  lemma ComponentsDropSeparator(s: string)
    requires s != [] && s[|s| - 1] == Separator
    ensures Components(s) == Components(s[..|s| - 1])
  {
  }

  /** A path ending in other text has the components before its leafname, then the leafname. */
  lemma ComponentsLastLeaf(s: string)
    requires s != [] && s[|s| - 1] != Separator
    ensures Components(s) == Components(s[..|s| - |Leafname(s)|]) + [Leafname(s)]
  {
  }

  /** A string of separators only has no components. */
  lemma {:induction false} ComponentsOfSeparators(s: string)
    requires AllSeparators(s)
    ensures Components(s) == []
    decreases |s|
  {
    if s != [] {
      ComponentsOfSeparators(s[..|s| - 1]);
    }
  }

  /**
   * Text ending in a separator, put before a path that ends in other text,
   * joins the front of that path and leaves its leafname as the last component.
   */
  lemma {:induction false} ComponentsAppendLast(s: string, t: string)
    requires t != [] && t[|t| - 1] != Separator
    requires Separator in t || (s != [] && s[|s| - 1] == Separator)
    ensures Components(s + t) == Components(s + t[..|t| - |Leafname(t)|]) + [Leafname(t)]
  {
    var st := s + t;
    var leaf := Leafname(t);
    var t' := t[..|t| - |leaf|];
    assert st[|st| - 1] == t[|t| - 1];
    calc {
      Components(st);
    == { ComponentsLastLeaf(st); }
      Components(st[..|st| - |Leafname(st)|]) + [Leafname(st)];
    == { LeafnameAppend(s, t); assert st[..|st| - |leaf|] == s + t'; }
      Components(s + t') + [leaf];
    }
  }

  /** Two strings that meet at a separator (or where one is empty) have the components of both, in order. */
  lemma {:induction false} ComponentsAppend(s: string, t: string)
    requires s == [] || t == [] || s[|s| - 1] == Separator || t[0] == Separator
    ensures Components(s + t) == Components(s) + Components(t)
    decreases |t|
  {
    if t == [] {
      assert s + t == s;
    } else if s == [] {
      assert s + t == t;
    } else if t[|t| - 1] == Separator {
      var t' := t[..|t| - 1];
      calc {
        Components(s + t);
      == { ComponentsDropSeparator(s + t); assert (s + t)[..|s + t| - 1] == s + t'; }
        Components(s + t');
      == { ComponentsAppend(s, t'); }
        Components(s) + Components(t');
      == { ComponentsDropSeparator(t); }
        Components(s) + Components(t);
      }
    } else {
      var t' := t[..|t| - |Leafname(t)|];
      assert t[0] == Separator ==> t[0] in t;
      calc {
        Components(s + t);
      == { ComponentsAppendLast(s, t); }
        Components(s + t') + [Leafname(t)];
      == { ComponentsAppend(s, t'); }
        Components(s) + Components(t') + [Leafname(t)];
      == { ComponentsLastLeaf(t); }
        Components(s) + Components(t);
      }
    }
  }

  /** Trimming separators from the end keeps the components. */
  lemma TrimTrailingKeepsComponents(s: string)
    ensures Components(TrimTrailing(s)) == Components(s)
  {
    var t := TrimTrailing(s);
    var rest := s[|t|..];
    TrimTrailingCutsSeparators(s);
    AllSeparatorsChars(rest);
    assert s == t + rest;
    ComponentsAppend(t, rest);
    ComponentsOfSeparators(rest);
  }

  /** Trimming separators from the start keeps the components. */
  lemma TrimLeadingKeepsComponents(s: string)
    ensures Components(TrimLeading(s)) == Components(s)
  {
    var l := TrimLeading(s);
    var lead := s[..|s| - |l|];
    TrimLeadingCutsSeparators(s);
    AllSeparatorsChars(lead);
    assert s == lead + l;
    ComponentsAppend(lead, l);
    ComponentsOfSeparators(lead);
  }

  /** Two paths joined by one separator have the components of both, in order. */
  lemma {:induction false} SeparatorJoinComponents(x: string, y: string)
    ensures Components(x + [Separator] + y) == Components(x) + Components(y)
  {
    var sep := [Separator];
    assert x + sep + y == x + (sep + y);
    ComponentsOfSeparators(sep);
    ComponentsAppend(sep, y);
    ComponentsAppend(x, sep + y);
  }

  /**
   * Whatever separators the two elements carry, the built file name has
   * the components of the first followed by those of the second: nothing
   * is lost, added or merged.
   */
  lemma {:induction false} BuildFilenameComponents(a: string, b: string)
    ensures Components(BuildFilename(a, b)) == Components(a) + Components(b)
  {
    var r := BuildFilename(a, b);
    if a == [] {
      assert Components(a) == [];
    } else if b == [] {
      assert Components(b) == [];
    } else if AllSeparators(a) && AllSeparators(b) {
      assert r == a + b;
      ComponentsAppend(a, b);
    } else if AllSeparators(a) {
      var l := TrimLeading(b);
      assert r == a + l;
      ComponentsOfSeparators(a);
      ComponentsAppend(a, l);
      TrimLeadingKeepsComponents(b);
    } else if AllSeparators(b) {
      var t := TrimTrailing(a);
      assert r == t + b;
      AllSeparatorsChars(b);
      ComponentsOfSeparators(b);
      ComponentsAppend(t, b);
      TrimTrailingKeepsComponents(a);
    } else {
      SeparatorJoinComponents(TrimTrailing(a), TrimLeading(b));
      TrimTrailingKeepsComponents(a);
      TrimLeadingKeepsComponents(b);
    }
  }

  /** Joining a directory and a leaf that has no separator, the leafname is that leaf. */
  lemma LeafnameOfBuild(dir: string, leaf: string)
    requires leaf != [] && Separator !in leaf
    ensures Leafname(BuildFilename(dir, leaf)) == leaf
  {
    assert leaf[0] in leaf && leaf[|leaf| - 1] in leaf;
    assert !AllSeparators(leaf);
    assert TrimLeading(leaf) == leaf;
    var name := BuildFilename(dir, leaf);
    assert name[|name| - |leaf|..] == leaf;
    if dir != [] {
      if AllSeparators(dir) {
        assert name == dir + leaf;
      } else {
        assert name == TrimTrailing(dir) + [Separator] + leaf;
      }
    }
    LeafnameUnique(name, leaf);
  }

  /** Elements that neither end nor start with a separator are joined by exactly one. */
  lemma JoinPlain(dir: string, leaf: string)
    requires dir != [] && dir[|dir| - 1] != Separator
    requires leaf != [] && leaf[0] != Separator
    ensures BuildFilename(dir, leaf) == dir + [Separator] + leaf
  {
    AllSeparatorsChars(leaf);
    assert !AllSeparators(dir) && !AllSeparators(leaf);
  }
}
