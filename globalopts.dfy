/**
 * The command-line side of the global options (src/globalopts.c): the
 * option table, the normalisation of option names before they become
 * keys, the scheme-name corrections, and the split of argv at -e or
 * --execute.
 */
module GlobalOpts {
  import opened Wrappers
  import opened Options
  import OptsFile
  import opened Decimal

  /** A row of the GOptionEntry table: its long name and its short name ('\0' for none). */
  datatype OptionEntry = OptionEntry(longName: string, shortName: char)

  const NoShortName: char := '\0'

  /** global_g_options, in order (built against GTK 3, so --no-geometry is present). */
  const Table: seq<OptionEntry> := [
    OptionEntry("usage", 'u'),
    OptionEntry("directory", 'd'),
    OptionEntry("geometry", NoShortName),
    OptionEntry("appdir", NoShortName),
    OptionEntry("show-menubar", NoShortName),
    OptionEntry("hide-menubar", NoShortName),
    OptionEntry("profile", 'p'),
    OptionEntry("colour-scheme", 'c'),
    OptionEntry("color-scheme", NoShortName),
    OptionEntry("shortcut-scheme", 's'),
    OptionEntry("colour_scheme", 'c'),
    OptionEntry("shortcut_scheme", 'c'),
    OptionEntry("maximise", 'm'),
    OptionEntry("maximize", NoShortName),
    OptionEntry("fullscreen", 'f'),
    OptionEntry("zoom", 'z'),
    OptionEntry("separate", NoShortName),
    OptionEntry("replace", NoShortName),
    OptionEntry("title", 'T'),
    OptionEntry("tab-name", 'n'),
    OptionEntry("tab", NoShortName),
    OptionEntry("fork", NoShortName),
    OptionEntry("disable-sm", NoShortName),
    OptionEntry("role", NoShortName),
    OptionEntry("restart-session-id", NoShortName),
    OptionEntry("clone-session-id", NoShortName),
    OptionEntry("no-geometry", NoShortName),
    OptionEntry("execute", 'e')
  ]

  /** The index of the first table entry with short name c, if any. */
  function FirstWithShort(table: seq<OptionEntry>, c: char): (r: Option<nat>)
    ensures r.Some? ==> (r.value < |table| && table[r.value].shortName == c
                         && forall j :: 0 <= j < r.value ==> table[j].shortName != c)
    ensures r.None? ==> forall j :: 0 <= j < |table| ==> table[j].shortName != c
  {
    if table == [] then None
    else if table[0].shortName == c then Some(0)
    else
      match FirstWithShort(table[1..], c)
      case None => None
      case Some(i) => Some(i + 1)
  }

  /** The name without its leading dashes. */
  function StripDashes(name: string): (r: string)
    ensures |r| <= |name| && r == name[|name| - |r|..]
    ensures r == [] || r[0] != '-'
    ensures forall i :: 0 <= i < |name| - |r| ==> name[i] == '-'
  {
    if name != [] && name[0] == '-' then StripDashes(name[1..]) else name
  }

  /** The option name process_option_name yields, looking short names up in table. */
  function OptionName(table: seq<OptionEntry>, name: string): string
  {
    var s := StripDashes(name);
    if |s| == 1 && FirstWithShort(table, s[0]).Some? then table[FirstWithShort(table, s[0]).value].longName
    else s
  }

  /**
   * process_option_name over the option table: every leading '-' is
   * skipped, and a name of one character becomes the long name of the
   * first entry with that short name.
   */
  method ProcessOptionName(table: seq<OptionEntry>, name: string) returns (r: string)
    ensures r == OptionName(table, name)
  {
    var k := 0;
    while k < |name| && name[k] == '-'
      invariant 0 <= k <= |name|
      invariant StripDashes(name) == StripDashes(name[k..])
    {
      assert name[k..][1..] == name[k + 1..];
      k := k + 1;
    }
    r := name[k..];
    if |r| == 1 {
      var n := 0;
      while n < |table|
        invariant 0 <= n <= |table|
        invariant forall j :: 0 <= j < n ==> table[j].shortName != r[0]
      {
        if r[0] == table[n].shortName {
          FirstWithShortAt(table, r[0], n);
          return table[n].longName;
        }
        n := n + 1;
      }
    }
  }

  lemma FirstWithShortAt(table: seq<OptionEntry>, c: char, n: nat)
    requires n < |table| && table[n].shortName == c
    requires forall j :: 0 <= j < n ==> table[j].shortName != c
    ensures FirstWithShort(table, c) == Some(n)
  {
  }

  /** Every long name of the table has more than one character and does not start with '-'. */
  predicate LongNamesPlain(table: seq<OptionEntry>)
  {
    forall i :: 0 <= i < |table| ==> |table[i].longName| > 1 && table[i].longName[0] != '-'
  }

  lemma TableLongNamesPlain()
    ensures LongNamesPlain(Table)
  {
  }

  /** With such a table, normalising twice is normalising once. */
  lemma OptionNameIdempotent(table: seq<OptionEntry>, name: string)
    requires LongNamesPlain(table)
    ensures OptionName(table, OptionName(table, name)) == OptionName(table, name)
  {
    var s := StripDashes(name);
    if |s| == 1 && FirstWithShort(table, s[0]).Some? {
      var l := table[FirstWithShort(table, s[0]).value].longName;
      assert StripDashes(l) == l;
    } else {
      assert StripDashes(s) == s;
    }
  }

  /** The key global_options_set_string stores under: the scheme spellings are normalised. */
  function StringOptionKey(optionName: string): (key: string)
    ensures key != "colour-scheme" && key != "color-scheme" && key != "color_scheme" && key != "shortcut-scheme"
  {
    var name := OptionName(Table, optionName);
    if name == "colour-scheme" || name == "color-scheme" || name == "color_scheme" then "colour_scheme"
    else if name == "shortcut-scheme" then "shortcut_scheme"
    else name
  }

  /** The key and value global_options_set_bool stores: the menu-bar switches set hide_menubar, anything else its own name to 1. */
  function BoolOptionSetting(optionName: string): (r: (string, int))
    ensures OptionName(Table, optionName) == "show-menubar" ==> r == ("hide_menubar", 0)
    ensures OptionName(Table, optionName) == "hide-menubar" ==> r == ("hide_menubar", 1)
    ensures OptionName(Table, optionName) != "show-menubar" && OptionName(Table, optionName) != "hide-menubar" ==> r == (OptionName(Table, optionName), 1)
    ensures r.0 != "show-menubar" && r.0 != "hide-menubar"
    ensures r.1 == 0 <==> OptionName(Table, optionName) == "show-menubar"
    ensures r.1 == 0 || r.1 == 1
  {
    var name := OptionName(Table, optionName);
    if name == "show-menubar" then ("hide_menubar", 0)
    else if name == "hide-menubar" then ("hide_menubar", 1)
    else (name, 1)
  }

  /** Whether argv[n] asks for the rest of the command line to be executed. */
  predicate IsExecute(arg: string)
  {
    arg == "--execute" || arg == "-e"
  }

  /** The index of the first -e or --execute among args, if any. */
  function FirstExecute(args: seq<string>): (r: Option<nat>)
    ensures r.Some? ==> (r.value < |args| && IsExecute(args[r.value])
                         && forall j :: 0 <= j < r.value ==> !IsExecute(args[j]))
    ensures r.None? ==> forall j :: 0 <= j < |args| ==> !IsExecute(args[j])
  {
    if args == [] then None
    else if IsExecute(args[0]) then Some(0)
    else
      match FirstExecute(args[1..])
      case None => None
      case Some(i) => Some(i + 1)
  }

  /** The strings of argv[0..argc). */
  function Args(argv: seq<Option<string>>): (r: seq<string>)
    requires forall i :: 0 <= i < |argv| ==> argv[i].Some?
    ensures |r| == |argv| && forall i :: 0 <= i < |argv| ==> r[i] == argv[i].value
  {
    if argv == [] then [] else Args(argv[..|argv| - 1]) + [argv[|argv| - 1].value]
  }

  /** The global state this file keeps: the options object and the command split off argv. */
  class GlobalOptions {
    var options: Options
    /** global_options_commandv: NULL or the words after -e. */
    var commandv: Option<seq<string>>

    constructor (opts: Options)
      ensures options == opts && commandv == None
    {
      options := opts;
      commandv := None;
    }

    /** global_options_set_string: the value is stored under the normalised key. */
    method SetString(optionName: string, value: string) returns (ok: bool)
      modifies options, options.kf
      ensures ok
      ensures options.Entries() == old(options.Entries())[(options.groupName, StringOptionKey(optionName)) := value]
    {
      var name := ProcessOptionName(Table, optionName);
      if name == "colour-scheme" || name == "color-scheme" || name == "color_scheme" {
        name := "colour_scheme";
      } else if name == "shortcut-scheme" {
        name := "shortcut_scheme";
      }
      options.SetString(name, Some(value));
      return true;
    }

    /** global_options_set_bool: the menu-bar switches set hide_menubar, any other flag is set to 1 under its name. */
    method SetBool(optionName: string) returns (ok: bool)
      modifies options, options.kf
      ensures ok
      ensures options.Entries() == old(options.Entries())[(options.groupName, BoolOptionSetting(optionName).0) := IntToString(BoolOptionSetting(optionName).1)]
    {
      var name := ProcessOptionName(Table, optionName);
      var val := 1;
      if name == "show-menubar" {
        name := "hide_menubar";
        val := 0;
      } else if name == "hide-menubar" {
        name := "hide_menubar";
      }
      options.SetInt(name, val);
      return true;
    }

    /**
     * global_options_preparse_argv_for_execute: argv is cut at the first
     * -e or --execute (which becomes NULL and the new argc) and the words
     * after it become the command; FALSE when -e is the last word, with
     * argv untouched. Whether the strings are shared or copied
     * (shallow_copy) only decides who frees them.
     */
    method PreparseArgvForExecute(argv: array<Option<string>>, argc: int) returns (ok: bool, newArgc: int)
      requires 0 <= argc <= argv.Length
      requires forall i :: 0 <= i < argc ==> argv[i].Some?
      modifies this, argv
      ensures options == old(options)
      ensures var e := FirstExecute(Args(old(argv[..argc])));
        && (e.None? ==> ok && newArgc == argc && argv[..] == old(argv[..]) && commandv == None)
        && (e.Some? && e.value == argc - 1 ==> !ok && newArgc == argc && argv[..] == old(argv[..]) && commandv == None)
        && (e.Some? && e.value < argc - 1 ==>
              ok && newArgc == e.value && argv[..] == old(argv[..])[e.value := None]
              && commandv == Some(Args(old(argv[e.value + 1..argc]))))
    {
      commandv := None;
      ghost var args := Args(argv[..argc]);
      var n := 0;
      while n < argc
        invariant 0 <= n <= argc
        invariant forall j :: 0 <= j < n ==> !IsExecute(args[j])
        invariant options == old(options) && commandv == None && argv[..] == old(argv[..])
      {
        if IsExecute(argv[n].value) {
          assert FirstExecute(args) == Some(n) by {
            FirstExecuteAt(args, n);
          }
          if n == argc - 1 {
            return false, argc;
          }
          argv[n] := None;
          assert argv[n + 1..argc] == old(argv[n + 1..argc]);
          var words := CopyWords(argv, n + 1, argc);
          commandv := Some(words);
          return true, n;
        }
        n := n + 1;
      }
      FirstExecuteNone(args);
      return true, argc;
    }
  }

  /** The copy loop of global_options_preparse_argv_for_execute: the words of argv[lo..hi] in a new vector. */
  method CopyWords(argv: array<Option<string>>, lo: nat, hi: nat) returns (words: seq<string>)
    requires lo <= hi <= argv.Length && forall i :: lo <= i < hi ==> argv[i].Some?
    ensures words == Args(argv[lo..hi])
  {
    var cmd := new string[hi - lo](_ => "");
    var m := 0;
    while m < hi - lo
      invariant 0 <= m <= hi - lo
      invariant forall j :: 0 <= j < m ==> cmd[j] == argv[lo + j].value
    {
      cmd[m] := argv[lo + m].value;
      m := m + 1;
    }
    words := cmd[..];
    ArgsSlice(argv[..], lo, hi, words);
    assert argv[..][lo..hi] == argv[lo..hi];
  }

  lemma FirstExecuteAt(args: seq<string>, n: nat)
    requires n < |args| && IsExecute(args[n])
    requires forall j :: 0 <= j < n ==> !IsExecute(args[j])
    ensures FirstExecute(args) == Some(n)
  {
  }

  lemma FirstExecuteNone(args: seq<string>)
    requires forall j :: 0 <= j < |args| ==> !IsExecute(args[j])
    ensures FirstExecute(args) == None
  {
  }

  lemma ArgsSlice(argv: seq<Option<string>>, lo: nat, hi: nat, words: seq<string>)
    requires lo <= hi <= |argv| && forall i :: lo <= i < hi ==> argv[i].Some?
    requires |words| == hi - lo && forall j :: 0 <= j < |words| ==> words[j] == argv[lo + j].value
    ensures Args(argv[lo..hi]) == words
  {
  }

  /**
   * global_options_copy_strv: a new vector with the same strings and the
   * same NULL terminator, filled from the terminator backwards.
   */
  method CopyStrv(ps: array<Option<string>>) returns (ps2: array<Option<string>>)
    requires exists i :: 0 <= i < ps.Length && ps[i].None?
    ensures fresh(ps2)
    ensures exists n :: (0 <= n < ps.Length && ps[n].None? && (forall i :: 0 <= i < n ==> ps[i].Some?)
                         && ps2[..] == ps[..n + 1])
  {
    var n := 0;
    while ps[n].Some?
      invariant 0 <= n < ps.Length
      invariant forall i :: 0 <= i < n ==> ps[i].Some?
      invariant exists i :: n <= i < ps.Length && ps[i].None?
      decreases ps.Length - n
    {
      n := n + 1;
    }
    ghost var len := n;
    ps2 := new Option<string>[n + 1](_ => None);
    var k := n;
    while k >= 0
      invariant -1 <= k <= n
      invariant forall i :: k < i <= n ==> ps2[i] == ps[i]
    {
      ps2[k] := ps[k];
      k := k - 1;
    }
    assert ps2[..] == ps[..len + 1];
  }

  /** correct_scheme: the new key takes the old key's value when the old has one and the new does not. */
  method CorrectScheme(g: GlobalOptions, badName: string, goodName: string)
    modifies g.options, g.options.kf
    ensures g.options.Entries() == Corrected(old(g.options.Entries()), g.options.groupName, badName, goodName)
  {
    var opts := g.options;
    var val := opts.LookupStringWithDefault(badName, None);
    if val.None? {
      return;
    }
    var good := opts.LookupStringWithDefault(goodName, None);
    if good.Some? {
      return;
    }
    opts.SetString(goodName, val);
  }

  /** The entries after correct_scheme. */
  function Corrected(kf: KeyFiles.Entries, group: string, badName: string, goodName: string): KeyFiles.Entries
  {
    match OptsFile.LookupStringWithDefault(kf, group, badName, None)
    case None => kf
    case Some(val) =>
      if OptsFile.LookupStringWithDefault(kf, group, goodName, None).Some? then kf
      else kf[(group, goodName) := val]
  }

  /** Correcting twice is correcting once, and afterwards the new key holds a value whenever the old one does. */
  lemma CorrectedIdempotent(kf: KeyFiles.Entries, group: string, badName: string, goodName: string)
    ensures Corrected(Corrected(kf, group, badName, goodName), group, badName, goodName) == Corrected(kf, group, badName, goodName)
    ensures OptsFile.LookupStringWithDefault(kf, group, badName, None).Some? ==>
      OptsFile.LookupStringWithDefault(Corrected(kf, group, badName, goodName), group, goodName, None).Some?
  {
  }
}
