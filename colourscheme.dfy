/**
 * Colour schemes (src/colourscheme.c): an Options object of the "Colours"
 * family, with the colours parsed from it cached beside it — foreground,
 * background, cursor and a palette of 24 entries. Parsing a colour name
 * (gdk_color_parse and, under GTK 2, allocating it in the colour map) is
 * an oracle passed in as a parameter.
 */
module ColourSchemes {
  import opened Wrappers
  import opened Decimal
  import opened Options
  import OptsFile

  const PALETTE_ENTRIES: nat := 24

  datatype Colour = Colour(red: nat, green: nat, blue: nat)

  /** A cleared GdkColor, as g_new0 leaves it. */
  const Black: Colour := Colour(0, 0, 0)

  /** The colour a name denotes, if it parses. */
  type ColourParser = string -> Option<Colour>

  /** A cached colour: none, one allocated but never written, or a parsed colour. */
  datatype Cache = NotCached | Uninitialised | Cached(colour: Colour)

  /** The default palette: the 8 normal, 8 bright and 8 dim colours. */
  const DefaultColours: seq<string> := [
    "#2c2c2c", "#c00000", "#00c000", "#c0c000",
    "#5555ff", "#aa00aa", "#00aaaa", "#e8e8e8",
    "#000000", "#ff0000", "#00ff00", "#ffff00",
    "#2666ff", "#ff00ff", "#00ffff", "#ffffff",
    "#4c4c4c", "#a83030", "#208820", "#a88800",
    "#555598", "#883088", "#308888", "#d8d8d8"]

  /** colour_scheme_choose_default: the default for a palette entry. */
  function ChooseDefault(entry: nat): (name: string)
    requires entry < PALETTE_ENTRIES
    ensures |name| == 7 && name[0] == '#'
  {
    DefaultColours[entry]
  }

  /** The normal and bright halves of the default palette start with black, and the bright half ends with white. */
  lemma DefaultPaletteEnds()
    ensures |DefaultColours| == PALETTE_ENTRIES
    ensures ChooseDefault(8) == "#000000" && ChooseDefault(15) == "#ffffff"
  {
  }

  /**
   * The palette size colour_scheme_parse_palette keeps: 0, 8, 16 and 24
   * stand, -1 (not given) and every other value become 0.
   */
  function NormalisePaletteSize(size: int): (r: int)
  {
    if size == 8 || size == 16 || size == 24 || size == 0 then size else 0
  }

  /** A normalised size is one of the four palette sizes, equal to the given size exactly when that was one already; normalising twice changes nothing. */
  lemma NormalisePaletteSizeSpec(size: int)
    ensures NormalisePaletteSize(size) in {0, 8, 16, 24}
    ensures NormalisePaletteSize(size) == size <==> size in {0, 8, 16, 24}
    ensures NormalisePaletteSize(NormalisePaletteSize(size)) == NormalisePaletteSize(size)
  {
  }

  /**
   * colour_scheme_lookup_and_parse: the colour stored under the key, if
   * its non-empty value parses; else the default colour, if there is one
   * and it parses; else nothing (FALSE).
   */
  function LookupAndParse(opts: Options, key: string, default: Option<string>, parse: ColourParser): (r: Option<Colour>)
    reads opts, opts.kf
  {
    var name := opts.LookupStringWithDefault(key, None);
    if name.Some? && parse(name.value).Some? then parse(name.value)
    else if default.Some? then parse(default.value)
    else None
  }

  /**
   * The lookup falls back only when the stored name is missing, empty or
   * unparseable; it then answers with the default's colour, and with no
   * default it fails.
   */
  lemma LookupAndParseFallback(opts: Options, key: string, default: Option<string>, parse: ColourParser)
    ensures var stored := OptsFile.LookupStringWithDefault(opts.Entries(), opts.groupName, key, None);
      (stored.Some? && parse(stored.value).Some? ==> LookupAndParse(opts, key, default, parse) == parse(stored.value))
      && (!(stored.Some? && parse(stored.value).Some?) && default.None? ==> LookupAndParse(opts, key, default, parse).None?)
      && (!(stored.Some? && parse(stored.value).Some?) && default.Some? ==> LookupAndParse(opts, key, default, parse) == parse(default.value))
  {
  }

  /** A stored colour that parses is never overridden by the default. */
  lemma StoredColourWins(opts: Options, key: string, name: string, default: Option<string>, parse: ColourParser)
    requires (opts.groupName, key) in opts.Entries() && opts.Entries()[(opts.groupName, key)] == name
    requires name != [] && parse(name).Some?
    ensures LookupAndParse(opts, key, default, parse) == parse(name)
  {
  }

  /** Palette entry n after a parse: the looked-up colour, else what the entry held before. */
  function PaletteEntry(opts: Options, n: nat, before: Colour, parse: ColourParser): Colour
    requires n < PALETTE_ENTRIES
    reads opts, opts.kf
  {
    match LookupAndParse(opts, IntToString(n), Some(ChooseDefault(n)), parse)
    case Some(c) => c
    case None => before
  }

  /** The palette a parse leaves, entry by entry. */
  function ParsedPalette(opts: Options, before: seq<Colour>, parse: ColourParser): (p: seq<Colour>)
    requires |before| == PALETTE_ENTRIES
    reads opts, opts.kf
    ensures |p| == PALETTE_ENTRIES
  {
    seq(PALETTE_ENTRIES, n requires 0 <= n < PALETTE_ENTRIES reads opts, opts.kf => PaletteEntry(opts, n, before[n], parse))
  }

  /**
   * Every entry the scheme names and can parse is that colour, whatever
   * the palette size; an unnamed or unparseable one gets its default when
   * that parses, and otherwise keeps what it was.
   */
  lemma ParsedPaletteEntries(opts: Options, before: seq<Colour>, parse: ColourParser, n: nat)
    requires |before| == PALETTE_ENTRIES && n < PALETTE_ENTRIES
    ensures var stored := OptsFile.LookupStringWithDefault(opts.Entries(), opts.groupName, IntToString(n), None);
      (stored.Some? && parse(stored.value).Some? ==> ParsedPalette(opts, before, parse)[n] == parse(stored.value).value)
      && (!(stored.Some? && parse(stored.value).Some?) && parse(ChooseDefault(n)).Some? ==>
            ParsedPalette(opts, before, parse)[n] == parse(ChooseDefault(n)).value)
      && (!(stored.Some? && parse(stored.value).Some?) && parse(ChooseDefault(n)).None? ==> ParsedPalette(opts, before, parse)[n] == before[n])
  {
  }

  /** The colours cached for one Options object (ColourScheme). */
  class ColourScheme {
    var foreground: Cache
    var background: Cache
    var cursor: Cache
    /** NULL until the palette is first parsed. */
    var palette: array?<Colour>
    var paletteSize: int

    ghost predicate Valid()
      reads this
    {
      palette != null ==> palette.Length == PALETTE_ENTRIES
    }

    /** colour_scheme_reset_cached_data: a fresh scheme with nothing cached. */
    constructor ()
      ensures Valid()
      ensures foreground == NotCached && background == NotCached && cursor == NotCached
      ensures palette == null && paletteSize == 0
    {
      foreground := NotCached;
      background := NotCached;
      cursor := NotCached;
      palette := null;
      paletteSize := 0;
    }

    /**
     * colour_scheme_parse_palette: a cleared palette is made if there is
     * none; the palette size is the stored palette_size (-1 when missing)
     * normalised, and every one of the 24 entries is looked up with its
     * default.
     */
    method ParsePalette(opts: Options, parse: ColourParser)
      requires Valid()
      modifies this, palette
      ensures Valid() && palette != null
      ensures old(palette) != null ==> palette == old(palette)
      ensures old(palette) == null ==> fresh(palette)
      ensures paletteSize == NormalisePaletteSize(OptsFile.LookupIntWithDefault(opts.Entries(), opts.groupName, "palette_size", -1))
      ensures palette[..] == ParsedPalette(opts, if old(palette) == null then seq(PALETTE_ENTRIES, _ => Black) else old(palette[..]), parse)
      ensures foreground == old(foreground) && background == old(background) && cursor == old(cursor)
    {
      if palette == null {
        palette := new Colour[PALETTE_ENTRIES](_ => Black);
      }
      paletteSize := NormalisePaletteSize(OptsFile.LookupIntWithDefault(opts.Entries(), opts.groupName, "palette_size", -1));
      ParsePaletteRange(opts, palette, parse);
    }

    /**
     * colour_scheme_get_cursor_colour: the cached cursor colour, else the
     * looked-up "cursor" with "#c0c0c0" as default unless allowNull; a
     * failed lookup caches nothing.
     */
    method GetCursorColour(opts: Options, allowNull: bool, parse: ColourParser) returns (r: Cache)
      modifies this
      ensures old(cursor) != NotCached ==> r == old(cursor)
      ensures old(cursor) == NotCached ==> r == CacheOf(LookupAndParse(opts, "cursor", if allowNull then None else Some("#c0c0c0"), parse))
      ensures cursor == r
      ensures foreground == old(foreground) && background == old(background)
      ensures palette == old(palette) && paletteSize == old(paletteSize)
    {
      if cursor == NotCached {
        cursor := CacheOf(LookupAndParse(opts, "cursor", if allowNull then None else Some("#c0c0c0"), parse));
      }
      r := cursor;
    }

    /** colour_scheme_get_foreground_colour: as the cursor, with key "foreground" and default "#c0c0c0". */
    method GetForegroundColour(opts: Options, allowNull: bool, parse: ColourParser) returns (r: Cache)
      modifies this
      ensures old(foreground) != NotCached ==> r == old(foreground)
      ensures old(foreground) == NotCached ==> r == CacheOf(LookupAndParse(opts, "foreground", if allowNull then None else Some("#c0c0c0"), parse))
      ensures foreground == r
      ensures background == old(background) && cursor == old(cursor)
      ensures palette == old(palette) && paletteSize == old(paletteSize)
    {
      if foreground == NotCached {
        foreground := CacheOf(LookupAndParse(opts, "foreground", if allowNull then None else Some("#c0c0c0"), parse));
      }
      r := foreground;
    }

    /** colour_scheme_get_background_colour: as the cursor, with key "background" and default "#000". */
    method GetBackgroundColour(opts: Options, allowNull: bool, parse: ColourParser) returns (r: Cache)
      modifies this
      ensures old(background) != NotCached ==> r == old(background)
      ensures old(background) == NotCached ==> r == CacheOf(LookupAndParse(opts, "background", if allowNull then None else Some("#000"), parse))
      ensures background == r
      ensures foreground == old(foreground) && cursor == old(cursor)
      ensures palette == old(palette) && paletteSize == old(paletteSize)
    {
      if background == NotCached {
        background := CacheOf(LookupAndParse(opts, "background", if allowNull then None else Some("#000"), parse));
      }
      r := background;
    }

    /** colour_scheme_set_palette_size: stored as given, without normalising. */
    method SetPaletteSize(size: int)
      modifies this
      ensures paletteSize == size
      ensures foreground == old(foreground) && background == old(background) && cursor == old(cursor) && palette == old(palette)
    {
      paletteSize := size;
    }

    /**
     * colour_scheme_set_palette_entry: a NULL name or an index outside
     * 0..23 changes nothing; otherwise a name that parses becomes the
     * entry and is stored under the key "<index>", and one that does not
     * changes nothing.
     */
    method SetPaletteEntry(opts: Options, index: int, colourName: Option<string>, parse: ColourParser)
      requires Valid() && palette != null
      modifies palette, opts, opts.kf
      ensures colourName.None? || !(0 <= index < PALETTE_ENTRIES) || parse(colourName.value).None? ==>
        palette[..] == old(palette[..]) && opts.Entries() == old(opts.Entries())
      ensures colourName.Some? && 0 <= index < PALETTE_ENTRIES && parse(colourName.value).Some? ==>
        palette[..] == old(palette[..])[index := parse(colourName.value).value]
        && opts.Entries() == old(opts.Entries())[(opts.groupName, IntToString(index)) := colourName.value]
      ensures opts.name == old(opts.name) && opts.ref == old(opts.ref)
    {
      if colourName.None? || !(0 <= index < PALETTE_ENTRIES) {
        return;
      }
      var c := parse(colourName.value);
      if c.Some? {
        palette[index] := c.value;
        opts.SetString(IntToString(index), colourName);
      }
    }

    /** colour_scheme_set_cursor_colour. */
    method SetCursorColour(opts: Options, colourName: Option<string>, parse: ColourParser)
      modifies this, opts, opts.kf
      ensures cursor == SetCache(old(cursor), colourName, parse)
      ensures opts.Entries() == SetColourEntries(old(opts.Entries()), opts.groupName, "cursor", colourName, parse)
      ensures foreground == old(foreground) && background == old(background) && palette == old(palette)
      ensures opts.name == old(opts.name) && opts.ref == old(opts.ref)
    {
      cursor := SetColour(opts, cursor, "cursor", colourName, parse);
    }

    /** colour_scheme_set_foreground_colour. */
    method SetForegroundColour(opts: Options, colourName: Option<string>, parse: ColourParser)
      modifies this, opts, opts.kf
      ensures foreground == SetCache(old(foreground), colourName, parse)
      ensures opts.Entries() == SetColourEntries(old(opts.Entries()), opts.groupName, "foreground", colourName, parse)
      ensures cursor == old(cursor) && background == old(background) && palette == old(palette)
      ensures opts.name == old(opts.name) && opts.ref == old(opts.ref)
    {
      foreground := SetColour(opts, foreground, "foreground", colourName, parse);
    }

    /** colour_scheme_set_background_colour. */
    method SetBackgroundColour(opts: Options, colourName: Option<string>, parse: ColourParser)
      modifies this, opts, opts.kf
      ensures background == SetCache(old(background), colourName, parse)
      ensures opts.Entries() == SetColourEntries(old(opts.Entries()), opts.groupName, "background", colourName, parse)
      ensures cursor == old(cursor) && foreground == old(foreground) && palette == old(palette)
      ensures opts.name == old(opts.name) && opts.ref == old(opts.ref)
    {
      background := SetColour(opts, background, "background", colourName, parse);
    }
  }

  /** colour_scheme_parse_palette_range: every entry is looked up in turn, with its default. */
  method ParsePaletteRange(opts: Options, p: array<Colour>, parse: ColourParser)
    requires p.Length == PALETTE_ENTRIES
    modifies p
    ensures p[..] == ParsedPalette(opts, old(p[..]), parse)
  {
    ghost var before := p[..];
    var n := 0;
    while n < PALETTE_ENTRIES
      invariant 0 <= n <= PALETTE_ENTRIES
      invariant forall k :: 0 <= k < n ==> p[k] == PaletteEntry(opts, k, before[k], parse)
      invariant forall k :: n <= k < PALETTE_ENTRIES ==> p[k] == before[k]
    {
      var c := LookupAndParse(opts, IntToString(n), Some(ChooseDefault(n)), parse);
      if c.Some? {
        p[n] := c.value;
      }
      n := n + 1;
    }
    assert p[..] == ParsedPalette(opts, before, parse);
  }

  /** A lookup's outcome as a cache: the colour, or nothing cached when the lookup failed. */
  function CacheOf(c: Option<Colour>): Cache
  {
    if c.Some? then Cached(c.value) else NotCached
  }

  /**
   * The cache colour_scheme_set_colour leaves: nothing for NULL, the
   * parsed colour, or, for a name that does not parse, the allocated
   * colour untouched — so a colour that was not cached becomes one that
   * was never written.
   */
  function SetCache(cache: Cache, colourName: Option<string>, parse: ColourParser): Cache
  {
    if colourName.None? then NotCached
    else if parse(colourName.value).Some? then Cached(parse(colourName.value).value)
    else if cache == NotCached then Uninitialised
    else cache
  }

  /** The option colour_scheme_set_colour stores: the name, "" for NULL, and nothing for a name that does not parse. */
  function SetColourEntries(entries: KeyFiles.Entries, group: string, key: string, colourName: Option<string>, parse: ColourParser): KeyFiles.Entries
  {
    if colourName.None? || parse(colourName.value).Some? then
      entries[(group, key) := if colourName.Some? then colourName.value else ""]
    else entries
  }

  /** colour_scheme_set_colour on one cached colour. */
  method SetColour(opts: Options, cache: Cache, key: string, colourName: Option<string>, parse: ColourParser) returns (r: Cache)
    modifies opts, opts.kf
    ensures r == SetCache(cache, colourName, parse)
    ensures opts.Entries() == SetColourEntries(old(opts.Entries()), opts.groupName, key, colourName, parse)
    ensures opts.name == old(opts.name) && opts.ref == old(opts.ref)
  {
    r := if cache == NotCached then Uninitialised else cache;
    var parsed := if colourName.Some? then parse(colourName.value) else None;
    if colourName.None? || parsed.Some? {
      opts.SetString(key, colourName);
    }
    if parsed.Some? {
      r := Cached(parsed.value);
    }
    if colourName.None? {
      r := NotCached;
    }
  }

  /**
   * Setting a colour to NULL drops the cache and stores an empty value,
   * which reads back as no colour, so the next lookup falls back to the
   * default.
   */
  lemma SetNullReadsDefault(entries: KeyFiles.Entries, group: string, key: string, cache: Cache, default: Option<string>, parse: ColourParser)
    ensures SetCache(cache, None, parse) == NotCached
    ensures OptsFile.LookupStringWithDefault(SetColourEntries(entries, group, key, None, parse), group, key, default) == default
  {
  }

  /** A name that parses is cached and reads back. */
  lemma SetParsedReadsBack(entries: KeyFiles.Entries, group: string, key: string, cache: Cache, name: string, parse: ColourParser)
    requires name != [] && parse(name).Some?
    ensures SetCache(cache, Some(name), parse) == Cached(parse(name).value)
    ensures OptsFile.LookupStringWithDefault(SetColourEntries(entries, group, key, Some(name), parse), group, key, None) == Some(name)
  {
  }
}
