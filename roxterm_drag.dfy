/**
 * Text dropped on a terminal (roxterm_drag_data_received in
 * src/roxterm.c). A list of URIs arrives as lines ended by CR LF; each
 * non-empty line is typed into the terminal as one single-quoted shell
 * word, so that the shell reading the line gets the URIs back whatever
 * quotes they contain. Any other text is typed as it is.
 */
module RoxtermDrag {
  import opened Wrappers

  /** strstr(text, "\r\n") != NULL. */
  predicate HasCrlf(s: string)
  {
    exists i :: 0 <= i < |s| - 1 && s[i] == '\r' && s[i + 1] == '\n'
  }

  /**
   * g_strsplit(s, "\r\n", 0) for a string holding the separator: the pieces
   * between separators, in order, the last one empty when s ends with one.
   */
  function SplitCrlf(s: string): (r: seq<string>)
    ensures |r| >= 1
    decreases |s|
  {
    if s == [] then [[]]
    else if |s| >= 2 && s[0] == '\r' && s[1] == '\n' then [[]] + SplitCrlf(s[2..])
    else
      var rest := SplitCrlf(s[1..]);
      [[s[0]] + rest[0]] + rest[1..]
  }

  /** The pieces joined back with CR LF between them (g_strjoinv). */
  function JoinCrlf(ps: seq<string>): string
    requires |ps| >= 1
  {
    if |ps| == 1 then ps[0] else ps[0] + "\r\n" + JoinCrlf(ps[1..])
  }

  /** Splitting loses nothing: joining the pieces gives the text back. */
  lemma {:induction false} JoinSplitCrlf(s: string)
    ensures JoinCrlf(SplitCrlf(s)) == s
    decreases |s|
  {
    if s == [] {
    } else if |s| >= 2 && s[0] == '\r' && s[1] == '\n' {
      JoinSplitCrlf(s[2..]);
      assert SplitCrlf(s) == [[]] + SplitCrlf(s[2..]);
      JoinEmptyFirst(SplitCrlf(s[2..]));
      assert s == "\r\n" + s[2..];
    } else {
      JoinSplitCrlf(s[1..]);
      var rest := SplitCrlf(s[1..]);
      assert SplitCrlf(s) == [[s[0]] + rest[0]] + rest[1..];
      JoinConsFirst(s[0], rest);
      assert s == [s[0]] + s[1..];
    }
  }

  /** An empty first piece: the join starts with the separator. */
  lemma JoinEmptyFirst(ps: seq<string>)
    requires |ps| >= 1
    ensures JoinCrlf([[]] + ps) == "\r\n" + JoinCrlf(ps)
  {
    var qs := [[]] + ps;
    assert qs[0] == [] && qs[1..] == ps;
  }

  /** A character put in front of the first piece comes first in the join. */
  lemma JoinConsFirst(c: char, ps: seq<string>)
    requires |ps| >= 1
    ensures JoinCrlf([[c] + ps[0]] + ps[1..]) == [c] + JoinCrlf(ps)
  {
    var qs := [[c] + ps[0]] + ps[1..];
    assert qs[0] == [c] + ps[0] && qs[1..] == ps[1..] && |qs| == |ps|;
    if |ps| > 1 {
      var a, t := ps[0], JoinCrlf(ps[1..]);
      assert JoinCrlf(qs) == ([c] + a) + "\r\n" + t;
      assert JoinCrlf(ps) == a + "\r\n" + t;
      Assoc([c] + a, "\r\n", t);
      Assoc([c], a, "\r\n" + t);
      Assoc(a, "\r\n", t);
    }
  }

  lemma Assoc(p: string, q: string, r: string)
    ensures (p + q) + r == p + (q + r)
  {
  }

  /**
   * The escaping of a URI holding a quote: split at each ' and joined
   * with '\'' (close the quote, an escaped quote, reopen the quote).
   */
  function EscapeQuotes(u: string): (r: string)
    ensures |r| >= |u|
  {
    if u == [] then [] else (if u[0] == '\'' then "'\\''" else [u[0]]) + EscapeQuotes(u[1..])
  }

  /** A URI without quotes is left as it is (the strchr test that skips the split). */
  lemma {:induction false} EscapeWithoutQuotes(u: string)
    requires '\'' !in u
    ensures EscapeQuotes(u) == u
  {
    if u != [] {
      EscapeWithoutQuotes(u[1..]);
      assert u == [u[0]] + u[1..];
    }
  }

  /** The shell word typed for a URI: quoted, then a space. */
  function QuotedWord(u: string): string
  {
    "'" + EscapeQuotes(u) + "' "
  }

  /** The words typed for the pieces: empty pieces are skipped. */
  function QuoteWords(ps: seq<string>): string
  {
    if ps == [] then []
    else QuoteWords(ps[..|ps| - 1]) + (if ps[|ps| - 1] == [] then [] else QuotedWord(ps[|ps| - 1]))
  }

  /** The non-empty pieces, in order. */
  function NonEmpty(ps: seq<string>): seq<string>
  {
    if ps == [] then []
    else NonEmpty(ps[..|ps| - 1]) + (if ps[|ps| - 1] == [] then [] else [ps[|ps| - 1]])
  }

  /**
   * What is typed into the terminal for dropped text: the text itself when
   * it holds no CR LF, otherwise the quoted words of its non-empty lines,
   * or nothing at all when every line is empty.
   */
  function DroppedText(text: string): Option<string>
  {
    if !HasCrlf(text) then Some(text)
    else
      var q := QuoteWords(SplitCrlf(text));
      if q == [] then None else Some(q)
  }

  /**
   * roxterm_drag_data_received: the lines are quoted one by one into
   * rejoined ("'" before the first, "' '" between two), a closing "' " is
   * added, and the result (if any) is what is fed to the terminal.
   */
  method DragDataReceived(text: string) returns (fed: Option<string>)
    ensures fed == DroppedText(text)
  {
    if !HasCrlf(text) {
      return Some(text);
    }
    var uris := SplitCrlf(text);
    var rejoined: Option<string> := None;
    var n := 0;
    while n < |uris|
      invariant 0 <= n <= |uris|
      invariant rejoined.None? <==> QuoteWords(uris[..n]) == []
      invariant rejoined.Some? ==> |rejoined.value| >= 1 && rejoined.value + "' " == QuoteWords(uris[..n])
    {
      QuoteWordsStep(uris, n);
      var u := uris[n];
      if u == [] {
        n := n + 1;
        continue;
      }
      if '\'' in u {
        u := EscapeQuotes(u);
      } else {
        EscapeWithoutQuotes(u);
      }
      if rejoined.Some? {
        JoinStep(rejoined.value, u);
        rejoined := Some(rejoined.value + "' '" + u);
      } else {
        rejoined := Some("'" + u);
      }
      n := n + 1;
    }
    assert uris[..|uris|] == uris;
    if rejoined.Some? && rejoined.value != [] {
      rejoined := Some(rejoined.value + "' ");
    }
    fed := rejoined;
  }

  /** One more piece adds its word, if it is not empty. */
  lemma QuoteWordsStep(ps: seq<string>, n: nat)
    requires n < |ps|
    ensures QuoteWords(ps[..n + 1]) == QuoteWords(ps[..n]) + (if ps[n] == [] then [] else QuotedWord(ps[n]))
  {
    assert ps[..n + 1][..n] == ps[..n];
  }

  /** Appending "' '" and the next escaped URI to rejoined keeps it one closing "' " short of the words. */
  lemma JoinStep(r: string, e: string)
    ensures r + "' '" + e + "' " == r + "' " + ("'" + e + "' ")
  {
  }

  /** The words collected so far, plus the one being read if any. */
  function Flush(words: seq<string>, cur: Option<string>): seq<string>
  {
    if cur.Some? then words + [cur.value] else words
  }

  /** The word being read, empty before its first character. */
  function Cur(cur: Option<string>): string
  {
    if cur.Some? then cur.value else []
  }

  /**
   * The words a POSIX shell reads from a line, for the quoting used here:
   * spaces separate words, '...' takes everything up to the next quote
   * literally, and outside quotes a backslash takes the next character
   * literally. None for an unterminated quote or a trailing backslash.
   */
  function ShellWords(s: string, words: seq<string>, cur: Option<string>, quoted: bool): Option<seq<string>>
    decreases |s|
  {
    if s == [] then (if quoted then None else Some(Flush(words, cur)))
    else if quoted then
      (if s[0] == '\'' then ShellWords(s[1..], words, cur, false)
       else ShellWords(s[1..], words, Some(Cur(cur) + [s[0]]), true))
    else if s[0] == ' ' then ShellWords(s[1..], Flush(words, cur), None, false)
    else if s[0] == '\'' then ShellWords(s[1..], words, Some(Cur(cur)), true)
    else if s[0] == '\\' then
      (if |s| == 1 then None else ShellWords(s[2..], words, Some(Cur(cur) + [s[1]]), false))
    else ShellWords(s[1..], words, Some(Cur(cur) + [s[0]]), false)
  }

  /** Inside quotes, an escaped URI and the closing quote read back as the URI. */
  lemma {:induction false} ReadEscaped(u: string, x: string, words: seq<string>, acc: string)
    ensures ShellWords(EscapeQuotes(u) + "'" + x, words, Some(acc), true)
         == ShellWords(x, words, Some(acc + u), false)
  {
    var s := EscapeQuotes(u) + "'" + x;
    if u == [] {
      assert s == "'" + x;
      assert s[1..] == x;
      assert acc + u == acc;
    } else if u[0] != '\'' {
      assert s == [u[0]] + (EscapeQuotes(u[1..]) + "'" + x);
      assert s[1..] == EscapeQuotes(u[1..]) + "'" + x;
      ReadEscaped(u[1..], x, words, acc + [u[0]]);
      assert acc + [u[0]] + u[1..] == acc + u;
    } else {
      var t := EscapeQuotes(u[1..]) + "'" + x;
      assert s == "'\\''" + t;
      assert s[0] == '\'';
      var s1 := s[1..];
      assert s1 == "\\''" + t;
      assert s1[0] == '\\' && s1[1] == '\'' && |s1| > 1;
      assert ShellWords(s, words, Some(acc), true) == ShellWords(s1, words, Some(acc), false);
      var s2 := s1[2..];
      assert s2 == "'" + t;
      assert ShellWords(s1, words, Some(acc), false) == ShellWords(s2, words, Some(acc + "'"), false);
      assert s2[0] == '\'' && s2[1..] == t;
      assert ShellWords(s2, words, Some(acc + "'"), false) == ShellWords(t, words, Some(acc + "'"), true);
      ReadEscaped(u[1..], x, words, acc + "'");
      assert acc + "'" + u[1..] == acc + u;
    }
  }

  /** A quoted word reads back as exactly its URI. */
  lemma ReadQuotedWord(u: string, x: string, words: seq<string>)
    ensures ShellWords(QuotedWord(u) + x, words, None, false) == ShellWords(x, words + [u], None, false)
  {
    var s := QuotedWord(u) + x;
    assert s == "'" + (EscapeQuotes(u) + "'" + (" " + x));
    assert s[0] == '\'' && s[1..] == EscapeQuotes(u) + "'" + (" " + x);
    assert ShellWords(s, words, None, false) == ShellWords(s[1..], words, Some([]), true);
    ReadEscaped(u, " " + x, words, []);
    assert [] + u == u;
    assert (" " + x)[0] == ' ' && (" " + x)[1..] == x;
  }

  /** The words typed for the pieces read back as the non-empty pieces. */
  lemma {:induction false} ReadQuoteWords(ps: seq<string>, x: string, words: seq<string>)
    ensures ShellWords(QuoteWords(ps) + x, words, None, false) == ShellWords(x, words + NonEmpty(ps), None, false)
  {
    if ps == [] {
      assert QuoteWords(ps) + x == x;
      assert words + NonEmpty(ps) == words;
    } else {
      var init := ps[..|ps| - 1];
      var last := ps[|ps| - 1];
      var w := if last == [] then [] else QuotedWord(last);
      assert QuoteWords(ps) + x == QuoteWords(init) + (w + x);
      ReadQuoteWords(init, w + x, words);
      if last == [] {
        assert w + x == x;
        assert NonEmpty(ps) == NonEmpty(init);
      } else {
        ReadQuotedWord(last, x, words + NonEmpty(init));
        assert words + NonEmpty(init) + [last] == words + NonEmpty(ps);
      }
    }
  }

  /** Nothing is typed exactly when there are no non-empty pieces. */
  lemma {:induction false} QuoteWordsEmpty(ps: seq<string>)
    ensures QuoteWords(ps) == [] <==> NonEmpty(ps) == []
  {
    if ps != [] {
      QuoteWordsEmpty(ps[..|ps| - 1]);
    }
  }

  /**
   * What a drop types: text without CR LF unchanged; otherwise nothing
   * when every line is empty, and else words that the shell reads back as
   * exactly the non-empty lines, in order, whatever quotes they hold.
   */
  lemma DroppedTextSpec(text: string)
    ensures !HasCrlf(text) ==> DroppedText(text) == Some(text)
    ensures HasCrlf(text) ==> (DroppedText(text).None? <==> NonEmpty(SplitCrlf(text)) == [])
    ensures HasCrlf(text) && DroppedText(text).Some? ==>
      ShellWords(DroppedText(text).value, [], None, false) == Some(NonEmpty(SplitCrlf(text)))
  {
    if HasCrlf(text) {
      var ps := SplitCrlf(text);
      QuoteWordsEmpty(ps);
      ReadQuoteWords(ps, [], []);
      assert QuoteWords(ps) + [] == QuoteWords(ps);
      assert [] + NonEmpty(ps) == NonEmpty(ps);
    }
  }
}
