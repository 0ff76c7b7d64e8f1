/**
 * The reader of a saved session (parse_start_element, parse_end_element
 * and their helpers in src/roxterm.c). The markup parser calls it for
 * each start and end tag; it keeps in a parse context which of
 * roxterm_session, window, tab and command are open, collects a command's
 * arguments into a NULL-terminated vector, creates a tab when its tag
 * closes and a window when its tag closes, and reports the first misplaced
 * or unknown element or attribute as an error, which ends the parse.
 */
module RoxtermSession {
  import opened Wrappers
  import Decimal

  /** The attribute names and values of a start tag, in order. */
  type Attributes = seq<(string, string)>

  /** The GMarkup errors the handlers set, by message. */
  datatype SessionError =
    | NotWithin(element: string)                         // "<x> tag not within <parent>"
    | NestedWithin(element: string)                      // "<x> tag nested within ..."
    | TooManyArgs(argc: int)                             // "Too many <arg> elements ..."
    | Unmatched(element: string)                         // "Unmatched </x>"
    | CloseBeforeChild(element: string)                  // "Attempt to close <x> without closing ..."
    | UnknownElement(element: string)                    // "Unknown element <x>"
    | UnknownClosing(element: string)                    // "Unknown closing element </x>"
    | UnknownAttribute(element: string, attribute: string)
    | MissingAttribute(element: string, attribute: string)
    | AllocationAbort                                    // g_new0 with a negative count ends the program

  /** The attributes each opening helper knows; any other one is an error. */
  const SessionAttributes: set<string> := {"id"}
  const WindowAttributes: set<string> :=
    {"disp", "geometry", "title_template", "font", "title", "role", "xclass", "xname", "shortcut_scheme",
     "show_menubar", "always_show_tabs", "tab_pos", "disable_menu_shortcuts", "disable_tab_shortcuts",
     "maximised", "fullscreen", "zoom", "title_template_locked"}
  const TabAttributes: set<string> :=
    {"profile", "colour_scheme", "cwd", "title_template", "window_title", "icon_title", "encoding",
     "current", "title_template_locked"}
  const CommandAttributes: set<string> := {"argc"}
  const ArgAttributes: set<string> := {"s"}

  /** INT_MAX of the C int the argument count is kept in. */
  const INT_MAX: int := 0x7FFF_FFFF

  /** The first attribute whose name is not known: where the attribute loops stop with an error. */
  function FirstUnknown(attrs: Attributes, known: set<string>): (r: Option<string>)
    ensures r.None? <==> forall i :: 0 <= i < |attrs| ==> attrs[i].0 in known
    ensures r.Some? ==> r.value !in known
  {
    if attrs == [] then None
    else if attrs[0].0 !in known then Some(attrs[0].0)
    else FirstUnknown(attrs[1..], known)
  }

  /** When the first n attributes are known and the next is not, that next one is the first unknown. */
  lemma {:induction false} FirstUnknownAt(attrs: Attributes, known: set<string>, n: nat)
    requires n < |attrs| && attrs[n].0 !in known
    requires forall m :: 0 <= m < n ==> attrs[m].0 in known
    ensures FirstUnknown(attrs, known) == Some(attrs[n].0)
  {
    if n > 0 {
      FirstUnknownAt(attrs[1..], known, n - 1);
    }
  }

  /** The value of the last attribute of the given name: the one a loop assigning each in turn keeps. */
  function LastValue(attrs: Attributes, name: string): (r: Option<string>)
    ensures r.Some? <==> exists i :: 0 <= i < |attrs| && attrs[i].0 == name
    ensures r.Some? ==> exists i :: 0 <= i < |attrs| && attrs[i] == (name, r.value)
  {
    if attrs == [] then None
    else if attrs[|attrs| - 1].0 == name then Some(attrs[|attrs| - 1].1)
    else LastValue(attrs[..|attrs| - 1], name)
  }

  /** atoi: strtol's reading of a base-10 number, 0 when there is none. */
  function Atoi(v: string): int
  {
    Decimal.Strtol(v, 0).0
  }

  /** atoi reads back a count written with %d. */
  lemma AtoiOfCount(n: nat)
    requires n <= INT_MAX
    ensures Atoi(Decimal.NatToString(n)) == n
  {
    Decimal.StrtolNatToString([], n, []);
    assert [] + Decimal.NatToString(n) + [] == Decimal.NatToString(n);
  }

  /** The argc a <command> tag leaves: its last argc attribute read by atoi, or what argc was before. */
  function ArgcOf(attrs: Attributes, before: int): int
  {
    match LastValue(attrs, "argc")
    case None => before
    case Some(v) => Atoi(v)
  }

  /** The arguments of a NULL-terminated vector: the entries before the first NULL. */
  function Argv(a: seq<Option<string>>): (r: seq<string>)
    ensures |r| <= |a|
    ensures forall i :: 0 <= i < |r| ==> a[i] == Some(r[i])
    ensures |r| == |a| || a[|r|].None?
  {
    if a == [] || a[0].None? then [] else [a[0].value] + Argv(a[1..])
  }

  /** A vector holding the arguments and then NULL gives back exactly the arguments. */
  lemma ArgvOfFilled(a: seq<Option<string>>, args: seq<string>)
    requires |a| == |args| + 1 && a[|args|].None?
    requires forall i :: 0 <= i < |args| ==> a[i] == Some(args[i])
    ensures Argv(a) == args
  {
    var r := Argv(a);
    assert |r| == |args|;
  }

  /** A single pass over the attributes, stopping at the first one whose name is not known. */
  method CheckAttributes(attrs: Attributes, known: set<string>) returns (unknown: Option<string>)
    ensures unknown == FirstUnknown(attrs, known)
  {
    var n := 0;
    while n < |attrs|
      invariant 0 <= n <= |attrs|
      invariant forall m :: 0 <= m < n ==> attrs[m].0 in known
    {
      if attrs[n].0 !in known {
        FirstUnknownAt(attrs, known, n);
        return Some(attrs[n].0);
      }
      n := n + 1;
    }
    return None;
  }

  /** The _ROXTermParseContext fields the nesting rules use. */
  class SessionParser {
    var sessionTagOpen: bool
    /** rctx->win != NULL: a window is open. */
    var win: bool
    /** rctx->roxterm != NULL: a tab is open. */
    var roxterm: bool
    /** rctx->commandv: the argument vector of the open command, or NULL. */
    var commandv: array?<Option<string>>
    var argc: int
    var argn: int
    /** The command given to each tab made so far in the open window; None for the profile's default. */
    var tabs: seq<Option<seq<string>>>
    /** The windows made so far, by the commands of their tabs (a window left without tabs is deleted). */
    var windows: seq<seq<Option<seq<string>>>>

    /**
     * The nesting the handlers keep: a tab only inside a window, a window
     * only inside the session, a command only inside a tab; the vector has
     * argc slots and a NULL, the first argn filled and the rest NULL.
     */
    ghost predicate Valid()
      reads this, commandv
    {
      (roxterm ==> win) && (win ==> sessionTagOpen) && (commandv != null ==> roxterm)
      && (!win ==> tabs == [])
      && (commandv != null ==>
            argc >= 1 && commandv.Length == argc + 1 && 0 <= argn <= argc
            && (forall i :: 0 <= i < argn ==> commandv[i].Some?)
            && (forall i :: argn <= i < commandv.Length ==> commandv[i].None?))
    }

    /** The context as g_new0 makes it: nothing open, no vector, counts 0. */
    constructor ()
      ensures Valid()
      ensures !sessionTagOpen && !win && !roxterm && commandv == null && argc == 0 && argn == 0
      ensures tabs == [] && windows == []
    {
      sessionTagOpen := false;
      win := false;
      roxterm := false;
      commandv := null;
      argc := 0;
      argn := 0;
      tabs := [];
      windows := [];
    }

    /** The command close_tab_tag hands to the tab: the vector, if its first slot is set. */
    function TabCommand(): Option<seq<string>>
      reads this, commandv
    {
      if commandv == null || commandv.Length == 0 || commandv[0].None? then None else Some(Argv(commandv[..]))
    }

    /**
     * parse_open_command as written: argn is reset, each argc attribute is
     * read, any other attribute is an error; then a vector of argc + 1
     * NULLs is made when argc is not 0, and a missing argc is reported when
     * it is. argc is not reset first, so a <command> without the attribute
     * takes the count of the previous command.
     */
    method OpenCommandAsWritten(attrs: Attributes) returns (err: Option<SessionError>)
      requires Valid() && roxterm && commandv == null
      modifies this
      ensures Valid()
      ensures FirstUnknown(attrs, CommandAttributes).Some? ==>
        err == Some(UnknownAttribute("command", FirstUnknown(attrs, CommandAttributes).value)) && commandv == null
      ensures FirstUnknown(attrs, CommandAttributes).None? ==> argc == ArgcOf(attrs, old(argc))
      ensures FirstUnknown(attrs, CommandAttributes).None? ==> CommandAllocated(err, old(argc), attrs)
      ensures sessionTagOpen == old(sessionTagOpen) && win == old(win) && roxterm == old(roxterm)
      ensures tabs == old(tabs) && windows == old(windows)
    {
      err := ReadCommand(attrs);
    }

    /**
     * parse_open_command with argc reset to 0 before the attributes are
     * read, so that a <command> without argc is always reported.
     */
    method OpenCommand(attrs: Attributes) returns (err: Option<SessionError>)
      requires Valid() && roxterm && commandv == null
      modifies this
      ensures Valid()
      ensures FirstUnknown(attrs, CommandAttributes).Some? ==>
        err == Some(UnknownAttribute("command", FirstUnknown(attrs, CommandAttributes).value)) && commandv == null
      ensures FirstUnknown(attrs, CommandAttributes).None? ==> argc == ArgcOf(attrs, 0)
      ensures FirstUnknown(attrs, CommandAttributes).None? ==> CommandAllocated(err, 0, attrs)
      ensures sessionTagOpen == old(sessionTagOpen) && win == old(win) && roxterm == old(roxterm)
      ensures tabs == old(tabs) && windows == old(windows)
    {
      argc := 0;
      err := ReadCommand(attrs);
    }

    /**
     * What a <command> with known attributes leads to, argc having been
     * before beforehand: with argc 0 the missing attribute is reported;
     * otherwise a fresh vector of argc NULLs and a terminating NULL (none at
     * all for -1, as g_new0 of 0 gives NULL, and an abort below that).
     */
    twostate predicate CommandAllocated(new err: Option<SessionError>, before: int, attrs: Attributes)
      reads this
    {
      var a := ArgcOf(attrs, before);
      (a == 0 ==> err == Some(MissingAttribute("command", "argc")) && commandv == null)
      && (a >= 1 ==> err == None && commandv != null && fresh(commandv) && commandv.Length == a + 1 && argn == 0)
      && (a == -1 ==> err == None && commandv == null)
      && (a < -1 ==> err == Some(AllocationAbort) && commandv == null)
    }

    /** The body shared by both versions of parse_open_command, from argn = 0 on. */
    method ReadCommand(attrs: Attributes) returns (err: Option<SessionError>)
      requires Valid() && roxterm && commandv == null
      modifies this
      ensures Valid()
      ensures FirstUnknown(attrs, CommandAttributes).Some? ==>
        err == Some(UnknownAttribute("command", FirstUnknown(attrs, CommandAttributes).value)) && commandv == null
      ensures FirstUnknown(attrs, CommandAttributes).None? ==> argc == ArgcOf(attrs, old(argc))
      ensures FirstUnknown(attrs, CommandAttributes).None? ==> CommandAllocated(err, old(argc), attrs)
      ensures sessionTagOpen == old(sessionTagOpen) && win == old(win) && roxterm == old(roxterm)
      ensures tabs == old(tabs) && windows == old(windows)
    {
      argn := 0;
      var n := 0;
      while n < |attrs|
        invariant 0 <= n <= |attrs|
        invariant forall m :: 0 <= m < n ==> attrs[m].0 in CommandAttributes
        invariant argc == ArgcOf(attrs[..n], old(argc))
        invariant commandv == null && argn == 0
        invariant sessionTagOpen == old(sessionTagOpen) && win == old(win) && roxterm == old(roxterm)
        invariant tabs == old(tabs) && windows == old(windows)
      {
        assert attrs[..n + 1][..n] == attrs[..n];
        if attrs[n].0 == "argc" {
          argc := Atoi(attrs[n].1);
        } else {
          FirstUnknownAt(attrs, CommandAttributes, n);
          return Some(UnknownAttribute("command", attrs[n].0));
        }
        n := n + 1;
      }
      assert attrs[..|attrs|] == attrs;
      if argc != 0 {
        if argc + 1 < 0 {
          return Some(AllocationAbort);
        } else if argc + 1 == 0 {
          commandv := null;
        } else {
          commandv := new Option<string>[argc + 1](_ => None);
        }
        err := None;
      } else {
        err := Some(MissingAttribute("command", "argc"));
      }
    }

    /**
     * parse_open_arg: once argn has reached argc there are too many
     * arguments; otherwise the attributes must all be s, and the last s
     * given is stored in the next slot of the vector.
     */
    method OpenArg(attrs: Attributes) returns (err: Option<SessionError>)
      requires Valid() && commandv != null
      modifies this, commandv
      ensures Valid() && commandv == old(commandv) && argc == old(argc)
      ensures old(argn) >= argc ==> err == Some(TooManyArgs(argc))
      ensures old(argn) < argc && FirstUnknown(attrs, ArgAttributes).Some? ==>
        err == Some(UnknownAttribute("arg", FirstUnknown(attrs, ArgAttributes).value))
      ensures old(argn) < argc && FirstUnknown(attrs, ArgAttributes).None? && LastValue(attrs, "s").None? ==>
        err == Some(MissingAttribute("arg", "s"))
      ensures err.Some? ==> argn == old(argn) && commandv[..] == old(commandv[..])
      ensures err.None? <==> old(argn) < argc && FirstUnknown(attrs, ArgAttributes).None? && LastValue(attrs, "s").Some?
      ensures err.None? ==>
        argn == old(argn) + 1 && commandv[..] == old(commandv[..])[old(argn) := LastValue(attrs, "s")]
      ensures sessionTagOpen == old(sessionTagOpen) && win == old(win) && roxterm == old(roxterm)
      ensures tabs == old(tabs) && windows == old(windows)
    {
      if argn >= argc {
        return Some(TooManyArgs(argc));
      }
      var arg: Option<string> := None;
      var n := 0;
      while n < |attrs|
        invariant 0 <= n <= |attrs|
        invariant forall m :: 0 <= m < n ==> attrs[m].0 in ArgAttributes
        invariant arg == LastValue(attrs[..n], "s")
      {
        assert attrs[..n + 1][..n] == attrs[..n];
        if attrs[n].0 == "s" {
          arg := Some(attrs[n].1);
        } else {
          FirstUnknownAt(attrs, ArgAttributes, n);
          return Some(UnknownAttribute("arg", attrs[n].0));
        }
        n := n + 1;
      }
      assert attrs[..|attrs|] == attrs;
      if arg.Some? {
        commandv[argn] := arg;
        argn := argn + 1;
        err := None;
      } else {
        err := Some(MissingAttribute("arg", "s"));
      }
    }

    /**
     * parse_start_element: each element may open only inside its parent
     * and not inside itself; anything else is an unknown element. The
     * opening helpers then check the attributes.
     */
    method StartElement(name: string, attrs: Attributes) returns (err: Option<SessionError>)
      requires Valid()
      modifies this, commandv
      ensures Valid()
      ensures windows == old(windows)
      ensures name != "roxterm_session" ==> sessionTagOpen == old(sessionTagOpen)
      ensures name != "window" ==> win == old(win) && tabs == old(tabs)
      ensures name != "tab" ==> roxterm == old(roxterm)
      ensures name != "command" ==> commandv == old(commandv) && argc == old(argc)
      ensures name != "command" && name != "arg" ==> argn == old(argn)
      ensures name == "command" && old(commandv) != null ==> argc == old(argc) && argn == old(argn)
      ensures name !in {"roxterm_session", "window", "tab", "command", "arg"} ==>
        err == Some(UnknownElement(name)) && Unchanged()
      ensures name == "roxterm_session" && old(win) ==> err == Some(NestedWithin(name))
      ensures name == "roxterm_session" && !old(win) ==>
        sessionTagOpen
        && err == (if FirstUnknown(attrs, SessionAttributes).Some?
                   then Some(UnknownAttribute(name, FirstUnknown(attrs, SessionAttributes).value)) else None)
      ensures name == "window" && !old(sessionTagOpen) ==> err == Some(NotWithin(name))
      ensures name == "window" && old(win) ==> err == Some(NestedWithin(name))
      ensures name == "window" && old(sessionTagOpen) && !old(win) ==>
        (err.None? <==> FirstUnknown(attrs, WindowAttributes).None?) && (win <==> err.None?) && tabs == []
      ensures name == "tab" && !old(win) ==> err == Some(NotWithin(name))
      ensures name == "tab" && old(roxterm) ==> err == Some(NestedWithin(name))
      ensures name == "tab" && old(win) && !old(roxterm) ==>
        (err.None? <==> FirstUnknown(attrs, TabAttributes).None?) && (roxterm <==> err.None?) && commandv == null
      ensures name == "command" && !old(roxterm) ==> err == Some(NotWithin(name))
      ensures name == "command" && old(commandv) != null ==> err == Some(NestedWithin(name))
      ensures name == "command" && old(roxterm) && old(commandv) == null ==>
        (FirstUnknown(attrs, CommandAttributes).Some? ==>
           err == Some(UnknownAttribute(name, FirstUnknown(attrs, CommandAttributes).value)))
        && (FirstUnknown(attrs, CommandAttributes).None? ==> argc == ArgcOf(attrs, 0) && CommandAllocated(err, 0, attrs))
      ensures name == "arg" && old(commandv) == null ==> err == Some(NotWithin(name))
      ensures name == "arg" && old(commandv) != null && old(argn) >= old(argc) ==> err == Some(TooManyArgs(old(argc)))
      ensures name == "arg" && old(commandv) != null ==>
        commandv == old(commandv) && argc == old(argc)
        && (err.None? <==> old(argn) < argc && FirstUnknown(attrs, ArgAttributes).None? && LastValue(attrs, "s").Some?)
        && (err.None? ==> argn == old(argn) + 1 && commandv[..] == old(commandv[..])[old(argn) := LastValue(attrs, "s")])
        && (err.Some? ==> argn == old(argn) && commandv[..] == old(commandv[..]))
      ensures err.Some? && name != "roxterm_session" ==> Unchanged()
    {
      if name == "roxterm_session" {
        if win {
          err := Some(NestedWithin(name));
        } else {
          sessionTagOpen := true;
          var unknown := CheckAttributes(attrs, SessionAttributes);
          err := if unknown.Some? then Some(UnknownAttribute(name, unknown.value)) else None;
        }
      } else if name == "window" {
        if !sessionTagOpen {
          err := Some(NotWithin(name));
        } else if win {
          err := Some(NestedWithin(name));
        } else {
          var unknown := CheckAttributes(attrs, WindowAttributes);
          if unknown.Some? {
            err := Some(UnknownAttribute(name, unknown.value));
          } else {
            win := true;
            err := None;
          }
        }
      } else if name == "tab" {
        if !win {
          err := Some(NotWithin(name));
        } else if roxterm {
          err := Some(NestedWithin(name));
        } else {
          var unknown := CheckAttributes(attrs, TabAttributes);
          if unknown.Some? {
            err := Some(UnknownAttribute(name, unknown.value));
          } else {
            roxterm := true;
            err := None;
          }
        }
      } else if name == "command" {
        if !roxterm {
          err := Some(NotWithin(name));
        } else if commandv != null {
          err := Some(NestedWithin(name));
        } else {
          err := OpenCommand(attrs);
        }
      } else if name == "arg" {
        if commandv == null {
          err := Some(NotWithin(name));
        } else {
          err := OpenArg(attrs);
        }
      } else {
        err := Some(UnknownElement(name));
      }
    }

    /**
     * parse_end_element: a close tag must match an open element with no
     * child still open. Closing a tab creates it with the command
     * collected, closing a window keeps it if it has tabs. </command>
     * leaves the vector in place, and </arg> does nothing.
     */
    method EndElement(name: string) returns (err: Option<SessionError>)
      requires Valid()
      modifies this
      ensures Valid()
      ensures name == "roxterm_session" && !old(sessionTagOpen) ==> err == Some(Unmatched(name))
      ensures name == "roxterm_session" && old(sessionTagOpen) && old(win) ==> err == Some(CloseBeforeChild(name))
      ensures name == "roxterm_session" && old(sessionTagOpen) && !old(win) ==> err == None && !sessionTagOpen
      ensures name == "window" && !old(win) ==> err == Some(Unmatched(name))
      ensures name == "window" && old(roxterm) ==> err == Some(CloseBeforeChild(name))
      ensures name == "window" && old(win) && !old(roxterm) ==>
        err == None && !win && tabs == [] && windows == old(windows) + (if old(tabs) == [] then [] else [old(tabs)])
      ensures name == "tab" && !old(roxterm) ==> err == Some(Unmatched(name))
      ensures name == "tab" && old(roxterm) ==>
        err == None && !roxterm && win && commandv == null && tabs == old(tabs) + [old(TabCommand())]
      ensures name == "command" ==> err == (if old(commandv) == null then Some(Unmatched(name)) else None)
      ensures name == "arg" ==> err == None
      ensures name !in {"roxterm_session", "window", "tab", "command", "arg"} ==> err == Some(UnknownClosing(name))
      ensures err.Some? || name == "command" || name == "arg" ==> Unchanged() && argn == old(argn)
      ensures name != "window" ==> windows == old(windows)
      ensures argc == old(argc) && argn == old(argn)
      ensures name != "roxterm_session" ==> sessionTagOpen == old(sessionTagOpen)
    {
      err := None;
      if name == "roxterm_session" {
        if !sessionTagOpen {
          err := Some(Unmatched(name));
        } else if win {
          err := Some(CloseBeforeChild(name));
        } else {
          sessionTagOpen := false;
        }
      } else if name == "window" {
        if !win {
          err := Some(Unmatched(name));
        } else if roxterm {
          err := Some(CloseBeforeChild(name));
        } else {
          if tabs != [] {
            windows := windows + [tabs];
          }
          tabs := [];
          win := false;
        }
      } else if name == "tab" {
        if !roxterm {
          err := Some(Unmatched(name));
        } else {
          tabs := tabs + [TabCommand()];
          commandv := null;
          roxterm := false;
        }
      } else if name == "command" {
        if commandv == null {
          err := Some(Unmatched(name));
        }
      } else if name != "arg" {
        err := Some(UnknownClosing(name));
      }
    }

    /** Nothing the nesting rules look at has changed (argc and argn aside, which only the next command reads). */
    twostate predicate Unchanged()
      reads this
    {
      sessionTagOpen == old(sessionTagOpen) && win == old(win) && roxterm == old(roxterm)
      && commandv == old(commandv) && tabs == old(tabs)
    }
  }

  /** A tab as a saved session describes it: the arguments of its command, or None for the profile's own. */
  predicate WellFormedTab(t: Option<seq<string>>)
  {
    t.None? || 1 <= |t.value| <= INT_MAX
  }

  /** The windows a session makes: those with at least one tab. */
  function NonEmptyWindows(doc: seq<seq<Option<seq<string>>>>): seq<seq<Option<seq<string>>>>
  {
    if doc == [] then []
    else NonEmptyWindows(doc[..|doc| - 1]) + (if doc[|doc| - 1] == [] then [] else [doc[|doc| - 1]])
  }

  /**
   * The tags of one tab, as a session file lists them: <tab>, then for a
   * command <command argc="n"> with one <arg s="..."/> per argument, then
   * </tab>. They are all accepted, and the tab gets exactly that command.
   */
  method ReadTab(p: SessionParser, t: Option<seq<string>>) returns (err: Option<SessionError>)
    requires p.Valid() && p.win && !p.roxterm && p.commandv == null && WellFormedTab(t)
    modifies p
    ensures p.Valid() && err == None
    ensures p.win && !p.roxterm && p.commandv == null && p.sessionTagOpen == old(p.sessionTagOpen)
    ensures p.tabs == old(p.tabs) + [t] && p.windows == old(p.windows)
    ensures p.argc == if t.Some? then |t.value| else old(p.argc)
  {
    err := p.StartElement("tab", []);
    assert err == None;
    if t.Some? {
      var args := t.value;
      var count := Decimal.NatToString(|args|);
      AtoiOfCount(|args|);
      assert LastValue([("argc", count)], "argc") == Some(count);
      err := p.StartElement("command", [("argc", count)]);
      assert err == None;
      var k := 0;
      while k < |args|
        invariant 0 <= k <= |args|
        invariant p.Valid() && p.commandv != null && fresh(p.commandv) && p.commandv.Length == |args| + 1
        invariant p.argc == |args| && p.argn == k && p.roxterm && p.win && p.sessionTagOpen == old(p.sessionTagOpen)
        invariant forall i :: 0 <= i < k ==> p.commandv[i] == Some(args[i])
        invariant p.tabs == old(p.tabs) && p.windows == old(p.windows)
      {
        assert LastValue([("s", args[k])], "s") == Some(args[k]);
        err := p.StartElement("arg", [("s", args[k])]);
        assert err == None;
        k := k + 1;
      }
      err := p.EndElement("command");
      assert err == None;
      ArgvOfFilled(p.commandv[..], args);
    }
    err := p.EndElement("tab");
  }

  /** One <window> of a session file with its tabs: accepted, and kept if it has a tab. */
  method ReadWindow(p: SessionParser, w: seq<Option<seq<string>>>) returns (err: Option<SessionError>)
    requires p.Valid() && p.sessionTagOpen && !p.win && p.commandv == null
    requires forall i :: 0 <= i < |w| ==> WellFormedTab(w[i])
    modifies p
    ensures p.Valid() && err == None
    ensures p.sessionTagOpen && !p.win && p.commandv == null
    ensures p.windows == old(p.windows) + (if w == [] then [] else [w])
  {
    err := p.StartElement("window", []);
    assert err == None;
    var i := 0;
    while i < |w|
      invariant 0 <= i <= |w|
      invariant p.Valid() && p.sessionTagOpen && p.win && !p.roxterm && p.commandv == null
      invariant p.tabs == w[..i] && p.windows == old(p.windows)
    {
      err := ReadTab(p, w[i]);
      assert w[..i + 1] == w[..i] + [w[i]];
      i := i + 1;
    }
    assert w[..|w|] == w;
    err := p.EndElement("window");
  }

  /**
   * A whole session file, <roxterm_session> around its windows: every tag
   * is accepted, and the windows made are those with tabs, each with its
   * tabs' commands, in the order of the file.
   */
  method ReadSession(p: SessionParser, doc: seq<seq<Option<seq<string>>>>) returns (err: Option<SessionError>)
    requires p.Valid() && !p.sessionTagOpen && p.commandv == null
    requires forall j, i :: 0 <= j < |doc| && 0 <= i < |doc[j]| ==> WellFormedTab(doc[j][i])
    modifies p
    ensures p.Valid() && err == None && !p.sessionTagOpen
    ensures p.windows == old(p.windows) + NonEmptyWindows(doc)
  {
    err := p.StartElement("roxterm_session", []);
    assert err == None;
    var j := 0;
    while j < |doc|
      invariant 0 <= j <= |doc|
      invariant p.Valid() && p.sessionTagOpen && !p.win && p.commandv == null
      invariant p.windows == old(p.windows) + NonEmptyWindows(doc[..j])
    {
      err := ReadWindow(p, doc[j]);
      assert doc[..j + 1][..j] == doc[..j];
      j := j + 1;
    }
    assert doc[..|doc|] == doc;
    err := p.EndElement("roxterm_session");
  }

  /** A parser inside a session's second tab, after a first tab whose command had one argument. */
  method AfterOneCommand() returns (p: SessionParser)
    ensures fresh(p) && p.Valid() && p.roxterm && p.commandv == null && p.argc == 1
  {
    p := new SessionParser();
    var err := p.StartElement("roxterm_session", []);
    err := p.StartElement("window", []);
    err := ReadTab(p, Some(["sh"]));
    err := p.StartElement("tab", []);
  }

  /**
   * A <command> without argc after an earlier command: the code as written
   * takes the earlier count and accepts it, where the corrected reading
   * reports the missing attribute.
   */
  method StaleArgc() returns (asWritten: Option<SessionError>, corrected: Option<SessionError>)
    ensures asWritten == None
    ensures corrected == Some(MissingAttribute("command", "argc"))
  {
    var p := AfterOneCommand();
    asWritten := p.OpenCommandAsWritten([]);
    var q := AfterOneCommand();
    corrected := q.OpenCommand([]);
  }

  /**
   * </command> leaves the vector in place: a second <command> in the same
   * tab is refused as nested, while a further <arg> is still taken while
   * argn is below argc.
   */
  method AfterCommandClosed() returns (second: Option<SessionError>, arg: Option<SessionError>)
    ensures second == Some(NestedWithin("command"))
    ensures arg == None
  {
    var p := new SessionParser();
    var err := p.StartElement("roxterm_session", []);
    err := p.StartElement("window", []);
    err := p.StartElement("tab", []);
    AtoiOfCount(2);
    assert LastValue([("argc", Decimal.NatToString(2))], "argc") == Some(Decimal.NatToString(2));
    err := p.StartElement("command", [("argc", Decimal.NatToString(2))]);
    assert LastValue([("s", "sh")], "s") == Some("sh");
    err := p.StartElement("arg", [("s", "sh")]);
    err := p.EndElement("command");
    second := p.StartElement("command", []);
    arg := p.StartElement("arg", [("s", "sh")]);
  }
}
