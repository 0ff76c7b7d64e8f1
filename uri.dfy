/**
 * The command lines src/uri.c builds to open a URI, a mail address, a
 * directory, a file or an ssh host: a configured command, which may hold
 * a %s for the argument, or else the first program of a candidate list
 * that is found on PATH (or, for the browser, one taken from the
 * environment or the ROX MIME handlers). Looking programs up on PATH and
 * testing files are oracles passed in as parameters.
 */
module Uri {
  import opened Wrappers
  import opened CStrings

  /** g_find_program_in_path: the full path of a program found on PATH, if any. */
  type PathLookup = string -> Option<string>

  /** A candidate split at its first space: the program, and the arguments when there is a space. */
  function SplitAtSpace(s: string): (r: (string, Option<string>))
    ensures ' ' !in r.0
    ensures r.1.None? ==> r.0 == s
    ensures r.1.Some? ==> s == r.0 + " " + r.1.value
  {
    match StrChr(s, ' ')
    case None => (s, None)
    case Some(i) =>
      assert s == s[..i] + " " + s[i + 1..];
      (s[..i], Some(s[i + 1..]))
  }

  /** The index of the first candidate whose program is found. */
  function FirstFound(programs: seq<string>, find: PathLookup): (r: Option<nat>)
    ensures r.Some? ==> r.value < |programs| && find(SplitAtSpace(programs[r.value]).0).Some?
    ensures r.Some? ==> forall j :: 0 <= j < r.value ==> find(SplitAtSpace(programs[j]).0).None?
    ensures r.None? ==> forall j :: 0 <= j < |programs| ==> find(SplitAtSpace(programs[j]).0).None?
  {
    if programs == [] then None
    else if find(SplitAtSpace(programs[0]).0).Some? then Some(0)
    else
      match FirstFound(programs[1..], find)
      case None => None
      case Some(i) => Some(i + 1)
  }

  /** The command line for a candidate whose program was found at path: the path, then " args" if it had any. */
  function WithArgs(path: string, args: Option<string>): string
  {
    match args
    case None => path
    case Some(a) => path + " " + a
  }

  /**
   * uri_find_first_listed_in_path: the first candidate whose program is
   * on PATH, as its resolved path followed by its arguments; None when
   * none is found.
   */
  function FindFirstListedInPath(programs: seq<string>, find: PathLookup): Option<string>
  {
    match FirstFound(programs, find)
    case None => None
    case Some(i) =>
      var (prog, args) := SplitAtSpace(programs[i]);
      Some(WithArgs(find(prog).value, args))
  }

  /**
   * The search finds nothing exactly when no candidate's program is on
   * PATH, and otherwise answers with the first one found: its resolved
   * path, then its arguments.
   */
  lemma FindFirstListedInPathSpec(programs: seq<string>, find: PathLookup)
    ensures FindFirstListedInPath(programs, find).None?
      <==> forall j :: 0 <= j < |programs| ==> find(SplitAtSpace(programs[j]).0).None?
    ensures forall i :: (0 <= i < |programs| && find(SplitAtSpace(programs[i]).0).Some?
                         && (forall j :: 0 <= j < i ==> find(SplitAtSpace(programs[j]).0).None?))
                        ==> (FindFirstListedInPath(programs, find)
                             == Some(WithArgs(find(SplitAtSpace(programs[i]).0).value, SplitAtSpace(programs[i]).1)))
  {
    var r := FirstFound(programs, find);
    if r.None? {
      assert forall j :: 0 <= j < |programs| ==> find(SplitAtSpace(programs[j]).0).None?;
    } else {
      assert find(SplitAtSpace(programs[r.value]).0).Some?;
    }
  }

  /** A candidate with arguments, found on PATH, keeps its arguments after the resolved path. */
  lemma FirstCandidateWithArgs(prog: string, args: string, rest: seq<string>, find: PathLookup)
    requires ' ' !in prog && find(prog).Some?
    ensures FindFirstListedInPath([prog + " " + args] + rest, find) == Some(find(prog).value + " " + args)
  {
    var s := prog + " " + args;
    assert s[|prog|] == ' ';
    var i := StrChr(s, ' ').value;
    assert i == |prog|;
    assert s[..i] == prog;
    assert s[i + 1..] == args;
  }

  /** What uri_get_command answers: no command, a command line, or a configured template that printf cannot format with one string. */
  datatype CommandLine = NoCommand | Line(text: string) | UndefinedFormat

  /** strstr(s, "%s") != NULL. */
  predicate HasPercentS(s: string)
  {
    exists i :: 0 <= i < |s| - 1 && s[i] == '%' && s[i + 1] == 's'
  }

  /**
   * g_strdup_printf(fmt, arg) with the directives such a template can
   * use: "%%" prints '%' and the first "%s" prints arg. Any other
   * directive, a second "%s" or a lone '%' at the end has no defined
   * result, and gives None.
   */
  function FormatOne(fmt: string, arg: string, used: bool): Option<string>
  {
    if fmt == [] then Some([])
    else if fmt[0] != '%' then
      match FormatOne(fmt[1..], arg, used)
      case None => None
      case Some(r) => Some([fmt[0]] + r)
    else if |fmt| >= 2 && fmt[1] == '%' then
      match FormatOne(fmt[2..], arg, used)
      case None => None
      case Some(r) => Some("%" + r)
    else if |fmt| >= 2 && fmt[1] == 's' && !used then
      match FormatOne(fmt[2..], arg, true)
      case None => None
      case Some(r) => Some(arg + r)
    else None
  }

  /** Text without '%' is printed as it stands. */
  lemma {:induction false} FormatPlain(t: string, arg: string, used: bool)
    requires '%' !in t
    ensures FormatOne(t, arg, used) == Some(t)
  {
    if t != [] {
      assert '%' !in t[1..] by {
        assert forall k :: 0 <= k < |t[1..]| ==> t[1..][k] == t[k + 1];
      }
      FormatPlain(t[1..], arg, used);
      assert t == [t[0]] + t[1..];
    }
  }

  /** Plain text before a '%': printf copies it and carries on. */
  lemma {:induction false} FormatAfterPlain(p: string, t: string, arg: string, used: bool)
    requires '%' !in p
    ensures FormatOne(t, arg, used).None? ==> FormatOne(p + t, arg, used).None?
    ensures FormatOne(t, arg, used).Some? ==> FormatOne(p + t, arg, used) == Some(p + FormatOne(t, arg, used).value)
  {
    if p == [] {
      assert p + t == t;
      if FormatOne(t, arg, used).Some? {
        assert p + FormatOne(t, arg, used).value == FormatOne(t, arg, used).value;
      }
    } else {
      assert (p + t)[1..] == p[1..] + t;
      assert (p + t)[0] == p[0];
      assert '%' !in p[1..] by {
        assert forall k :: 0 <= k < |p[1..]| ==> p[1..][k] == p[k + 1];
      }
      FormatAfterPlain(p[1..], t, arg, used);
      if FormatOne(t, arg, used).Some? {
        var r := FormatOne(t, arg, used).value;
        assert [p[0]] + (p[1..] + r) == p + r;
      }
    }
  }

  /** A template with one "%s" and no other '%' prints the argument in its place. */
  lemma FormatTemplate(p: string, q: string, arg: string)
    requires '%' !in p && '%' !in q
    ensures FormatOne(p + "%s" + q, arg, false) == Some(p + arg + q)
  {
    var t := "%s" + q;
    assert t[0] == '%' && t[1] == 's' && t[2..] == q;
    FormatPlain(q, arg, true);
    assert FormatOne(t, arg, false) == Some(arg + q);
    FormatAfterPlain(p, t, arg, false);
    assert p + t == p + "%s" + q;
    assert p + (arg + q) == p + arg + q;
  }

  /**
   * uri_get_command(uri, cfged, candidates): an absent or empty configured
   * command is replaced by the first candidate found on PATH, or, with no
   * candidate list, by the preferred browser; none at all means no
   * command. A command holding "%s" is a printf template for the URI;
   * any other is followed by the URI, quoted with single quotes for the
   * browser.
   */
  function UriGetCommand(uri: string, cfged: Option<string>, candidates: Option<seq<string>>,
                         find: PathLookup, preferredBrowser: Option<string>): CommandLine
  {
    var cmd :=
      if cfged.None? || cfged.value == [] then
        (if candidates.Some? then FindFirstListedInPath(candidates.value, find) else preferredBrowser)
      else cfged;
    match cmd
    case None => NoCommand
    case Some(c) =>
      if HasPercentS(c) then
        match FormatOne(c, uri, false)
        case None => UndefinedFormat
        case Some(line) => Line(line)
      else if candidates.Some? then Line(c + " " + uri)
      else Line(c + " '" + uri + "'")
  }

  /** A configured command without '%' is followed by the URI: plainly for candidate lists, single-quoted for the browser. */
  lemma UriGetCommandPlain(uri: string, c: string, candidates: Option<seq<string>>, find: PathLookup, preferred: Option<string>)
    requires c != [] && '%' !in c
    ensures UriGetCommand(uri, Some(c), candidates, find, preferred)
      == if candidates.Some? then Line(c + " " + uri) else Line(c + " '" + uri + "'")
  {
  }

  /** A configured template with one "%s" and no other '%' gets the URI in place of the "%s". */
  lemma UriGetCommandTemplate(uri: string, p: string, q: string, candidates: Option<seq<string>>, find: PathLookup, preferred: Option<string>)
    requires '%' !in p && '%' !in q
    ensures UriGetCommand(uri, Some(p + "%s" + q), candidates, find, preferred) == Line(p + uri + q)
  {
    var c := p + "%s" + q;
    assert c[|p|] == '%' && c[|p| + 1] == 's';
    FormatTemplate(p, q, uri);
  }

  /**
   * With nothing configured, there is no command exactly when no
   * candidate is on PATH (or, for the browser, no browser is preferred);
   * otherwise the command is built from the candidate found.
   */
  lemma UriGetCommandFallback(uri: string, cfged: Option<string>, candidates: Option<seq<string>>, find: PathLookup, preferred: Option<string>)
    requires cfged.None? || cfged == Some([])
    ensures var found := if candidates.Some? then FindFirstListedInPath(candidates.value, find) else preferred;
      (UriGetCommand(uri, cfged, candidates, find, preferred) == NoCommand <==> found.None?)
      && (found.Some? ==> UriGetCommand(uri, cfged, candidates, find, preferred) == UriGetCommand(uri, found, candidates, find, preferred))
  {
  }

  /**
   * strstr and printf disagree on "%%s": the command counts as a template,
   * yet printf prints the "%s" literally and the URI is left out.
   */
  lemma EscapedPercentDropsUri(uri: string, find: PathLookup)
    ensures UriGetCommand(uri, Some("open %%s"), Some([]), find, None) == Line("open %s")
  {
    var c := "open %%s";
    assert c[6] == '%' && c[7] == 's';
    assert HasPercentS(c);
    FormatAfterPlain("open ", "%%s", uri, false);
    assert "open " + "%%s" == c;
    assert "%%s"[2..] == "s";
    FormatPlain("s", uri, false);
    assert "open " + "%" + "s" == "open %s";
  }

  /** The environment and file system the browser finder consults. */
  datatype BrowserEnv = BrowserEnv(
    browser: Option<string>,        // $BROWSER
    choicesPath: Option<string>,    // $CHOICESPATH
    home: string,                   // g_get_home_dir()
    dirs: set<string>,              // paths that are directories
    executables: set<string>)       // paths that are executable files

  /** The browsers tried on PATH, in order, when nothing else names one. */
  const Browsers: seq<string> := ["x-www-browser", "firefox", "iceweasel",
    "chromium", "google-chrome", "chrome", "opera", "gnome-www-browser",
    "epiphany", "konqueror", "mozilla", "netscape"]
  const Mailers: seq<string> := ["claws-mail", "thunderbird", "icedove", "balsa",
    "evolution", "mutt", "pine", "elm", "mozilla", "mail"]
  const DirectoryFilers: seq<string> := ["rox", "thunar", "nautilus -n --no-desktop", "dolphin", "konqueror"]
  const FileOpeners: seq<string> := ["xdg-open", "rox"]
  const SshCandidates: seq<string> := ["ssh", "rox"]

  /** g_strsplit(s, c, 0) on a non-empty string: the pieces between the separators, empty ones included. */
  function SplitFrom(s: string, c: char): (r: seq<string>)
    ensures |r| >= 1
    ensures forall k :: 0 <= k < |r| ==> c !in r[k]
    decreases |s|
  {
    match StrChr(s, c)
    case None => [s]
    case Some(i) => [s[..i]] + SplitFrom(s[i + 1..], c)
  }

  /** g_strsplit(s, c, 0): no pieces at all for the empty string. */
  function Split(s: string, c: char): seq<string>
  {
    if s == [] then [] else SplitFrom(s, c)
  }

  /** The pieces joined with the separator give the string back. */
  function Join(pieces: seq<string>, c: char): string
  {
    if pieces == [] then [] else if |pieces| == 1 then pieces[0] else pieces[0] + [c] + Join(pieces[1..], c)
  }

  lemma {:induction false} SplitJoin(s: string, c: char)
    ensures Join(SplitFrom(s, c), c) == s
    decreases |s|
  {
    var m := StrChr(s, c);
    if m.Some? {
      var i := m.value;
      var rest := s[i + 1..];
      var tail := SplitFrom(rest, c);
      SplitJoin(rest, c);
      var r := SplitFrom(s, c);
      assert r == [s[..i]] + tail;
      assert r[1..] == tail;
      assert Join(r, c) == s[..i] + [c] + Join(tail, c);
      assert s == s[..i] + [c] + rest;
    }
  }

  /** The default search path for ROX choices under the home directory. */
  function DefaultChoicesPath(home: string): string
  {
    home + "/.config:" + home + "/Choices:/usr/local/share/Choices:/usr/share/Choices"
  }

  /** The text/html handler under a choices branch: AppRun inside it when it is an application directory. */
  function Handler(branch: string, dirs: set<string>): string
  {
    var h := branch + "/MIME-types/text_html";
    if h in dirs then h + "/AppRun" else h
  }

  /** The first branch whose handler is executable, as that handler. */
  function FirstExecutableHandler(branches: seq<string>, env: BrowserEnv): (r: Option<string>)
    ensures r.Some? ==> r.value in env.executables
    ensures r.Some? ==> exists i :: 0 <= i < |branches| && r.value == Handler(branches[i], env.dirs)
    ensures r.None? ==> forall i :: 0 <= i < |branches| ==> Handler(branches[i], env.dirs) !in env.executables
  {
    if branches == [] then None
    else
      var h := Handler(branches[0], env.dirs);
      if h in env.executables then Some(h)
      else
        var r := FirstExecutableHandler(branches[1..], env);
        if r.Some? then
          var i :| 0 <= i < |branches[1..]| && r.value == Handler(branches[1..][i], env.dirs);
          assert r.value == Handler(branches[i + 1], env.dirs);
          r
        else
          assert forall i :: 1 <= i < |branches| ==> branches[i] == branches[1..][i - 1];
          r
  }

  /**
   * uri_get_preferred_browser: $BROWSER if set; else the first
   * executable text/html handler on the choices path; else the first of
   * Browsers found on PATH.
   */
  function PreferredBrowser(env: BrowserEnv, find: PathLookup): Option<string>
  {
    if env.browser.Some? then env.browser
    else
      var path := if env.choicesPath.Some? then env.choicesPath.value else DefaultChoicesPath(env.home);
      var handler := FirstExecutableHandler(Split(path, ':'), env);
      if handler.Some? then handler else FindFirstListedInPath(Browsers, find)
  }

  /**
   * $BROWSER wins outright; without it and with no executable handler on
   * the choices path, the browser is the first listed one on PATH, and
   * none at all when none of them is.
   */
  lemma PreferredBrowserOrder(env: BrowserEnv, find: PathLookup)
    ensures env.browser.Some? ==> PreferredBrowser(env, find) == env.browser
    ensures var branches := Split(if env.choicesPath.Some? then env.choicesPath.value else DefaultChoicesPath(env.home), ':');
      (env.browser.None? && (forall b :: b in branches ==> Handler(b, env.dirs) !in env.executables))
      ==> PreferredBrowser(env, find) == FindFirstListedInPath(Browsers, find)
  {
  }

  /** uri_get_browser_command: the browser's command, the URL single-quoted unless the command is a template. */
  function BrowserCommand(url: string, browser: Option<string>, env: BrowserEnv, find: PathLookup): CommandLine
  {
    UriGetCommand(url, browser, None, find, PreferredBrowser(env, find))
  }

  /** uri_get_mailer_command. */
  function MailerCommand(address: string, mailer: Option<string>, find: PathLookup): CommandLine
  {
    UriGetCommand(address, mailer, Some(Mailers), find, None)
  }

  /** uri_get_directory_command. */
  function DirectoryCommand(dirname: string, filer: Option<string>, find: PathLookup): CommandLine
  {
    UriGetCommand(dirname, filer, Some(DirectoryFilers), find, None)
  }

  /** uri_get_file_command. */
  function FileCommand(filename: string, filer: Option<string>, find: PathLookup): CommandLine
  {
    UriGetCommand(filename, filer, Some(FileOpeners), find, None)
  }

  /** uri_get_ssh_command. */
  function SshCommand(hostname: string, ssh: Option<string>, find: PathLookup): CommandLine
  {
    UriGetCommand(hostname, ssh, Some(SshCandidates), find, None)
  }
}
