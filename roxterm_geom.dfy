/**
 * The X geometry given on the command line or in a session (WxH, WxH±X±Y
 * or ±X±Y), as roxterm_data_new checks it in src/roxterm.c before the
 * window exists: parse_geom_n reads one number, check_geom_offsets a pair
 * of offsets, and the geometry branch keeps or frees the string and takes
 * the terminal's columns and rows from it.
 */
module RoxtermGeometry {
  import opened Wrappers
  import opened Decimal

  /** The index just past an optional sign at i. */
  function SignEnd(g: string, i: nat): (j: nat)
    requires i <= |g|
    ensures i <= j <= |g|
  {
    if i < |g| && (g[i] == '-' || g[i] == '+') then i + 1 else i
  }

  /** strchr(trmntrs, c) for a non-NUL c; None stands for a NULL trmntrs, which accepts nothing. */
  predicate IsTerminator(c: char, trmntrs: Option<string>)
  {
    trmntrs.Some? && c in trmntrs.value
  }

  /**
   * parse_geom_n(g + i, &n, trmntrs): an optional sign, at least one digit,
   * and then the end of the string or a terminator. The number (as sscanf's
   * %d reads it, sign included) and the index just past the digits, or None.
   */
  function ParseGeomN(g: string, i: nat, trmntrs: Option<string>): (r: Option<(int, nat)>)
    requires i <= |g|
    ensures r.Some? ==> SignEnd(g, i) < r.value.1 <= |g|
  {
    var j := SignEnd(g, i);
    if j == |g| || !IsDigit(g[j]) then None
    else
      var e := DigitsEnd(g, j);
      if e < |g| && !IsTerminator(g[e], trmntrs) then None
      else
        var v := DigitsValue(g, j, e);
        Some((if j > i && g[i] == '-' then -v else v, e))
  }

  /**
   * What parse_geom_n accepts: the characters after the sign up to the
   * index returned are all digits, spelling the number (negated after a
   * '-'), and the end of the string or a terminator follows them.
   */
  lemma ParseGeomNSound(g: string, i: nat, trmntrs: Option<string>)
    requires i <= |g|
    ensures var r := ParseGeomN(g, i, trmntrs);
      var j := SignEnd(g, i);
      r.Some? ==>
        AllDigits(g[j..r.value.1])
        && (r.value.1 == |g| || (!IsDigit(g[r.value.1]) && IsTerminator(g[r.value.1], trmntrs)))
        && r.value.0 == (if j > i && g[i] == '-' then -(ParseDecimal(g[j..r.value.1]) as int) else ParseDecimal(g[j..r.value.1]))
  {
    var j := SignEnd(g, i);
    if j < |g| && IsDigit(g[j]) {
      DigitsEndRun(g, j);
      var e := DigitsEnd(g, j);
      DigitsValueOfRun(g, j, e);
    }
  }

  /** And everything of that shape is accepted: sign, digits, then the end or a terminator. */
  lemma ParseGeomNComplete(g: string, i: nat, e: nat, trmntrs: Option<string>)
    requires i <= |g| && SignEnd(g, i) < e <= |g|
    requires AllDigits(g[SignEnd(g, i)..e])
    requires e == |g| || (!IsDigit(g[e]) && IsTerminator(g[e], trmntrs))
    ensures var j := SignEnd(g, i);
      ParseGeomN(g, i, trmntrs)
      == Some((if j > i && g[i] == '-' then -(ParseDecimal(g[j..e]) as int) else ParseDecimal(g[j..e]), e))
  {
    var j := SignEnd(g, i);
    assert IsDigit(g[j..e][0]);
    DigitsRunOf(g, j, e);
    DigitsValueOfRun(g, j, e);
  }

  /** The sign written before an X offset: '-' for a negative one, '+' otherwise. */
  function SignOf(v: int): string
  {
    if v < 0 then ['-'] else ['+']
  }

  /** The magnitude of an offset. */
  function Abs(v: int): nat
  {
    if v < 0 then -v else v
  }

  /** An offset as X geometry writes it: always signed. */
  function Offset(v: int): string
  {
    SignOf(v) + NatToString(Abs(v))
  }

  /** An optional sign: nothing, '+' or '-'. */
  predicate SignText(s: string)
  {
    |s| <= 1 && (|s| == 1 ==> s[0] == '+' || s[0] == '-')
  }

  /** A number written after p, with an optional sign, reads back as itself and ends where its digits end. */
  lemma ParseGeomNOfNumber(p: string, s: string, n: nat, rest: string, trmntrs: Option<string>)
    requires SignText(s)
    requires |rest| == 0 || (!IsDigit(rest[0]) && IsTerminator(rest[0], trmntrs))
    ensures var d := NatToString(n);
      ParseGeomN(p + s + d + rest, |p|, trmntrs) == Some((if |s| == 1 && s[0] == '-' then -(n as int) else n, |p| + |s| + |d|))
  {
    ParseNatToString(n);
    DigitsAfter(p, s, NatToString(n), n, rest, trmntrs);
  }

  /** The same for any digits d of value v. */
  lemma DigitsAfter(p: string, s: string, d: string, v: nat, rest: string, trmntrs: Option<string>)
    requires SignText(s)
    requires |d| >= 1 && AllDigits(d) && ParseDecimal(d) == v
    requires |rest| == 0 || (!IsDigit(rest[0]) && IsTerminator(rest[0], trmntrs))
    ensures ParseGeomN(p + s + d + rest, |p|, trmntrs) == Some((if |s| == 1 && s[0] == '-' then -(v as int) else v, |p| + |s| + |d|))
  {
    var g := p + s + d + rest;
    NumberShape(p, s, d, rest);
    assert (|p| + |s| > |p| && g[|p|] == '-') == (|s| == 1 && s[0] == '-');
    ParseGeomNAt(g, |p|, |p| + |s|, |p| + |s| + |d|, v, trmntrs);
  }

  /** An offset written at i of g reads back as itself when the end of g or a terminator follows it. */
  lemma OffsetAt(g: string, i: nat, v: int, trmntrs: Option<string>)
    requires i + |Offset(v)| <= |g| && g[i..i + |Offset(v)|] == Offset(v)
    requires var e := i + |Offset(v)|;
      e == |g| || (!IsDigit(g[e]) && IsTerminator(g[e], trmntrs))
    ensures ParseGeomN(g, i, trmntrs) == Some((v, i + |Offset(v)|))
  {
    var d := NatToString(Abs(v));
    var e := i + |Offset(v)|;
    assert g[i] == Offset(v)[0];
    assert g[i + 1..e] == Offset(v)[1..] == d;
    ParseNatToString(Abs(v));
    ParseGeomNAt(g, i, i + 1, e, Abs(v), trmntrs);
  }

  /** parse_geom_n at i, where the digits of v run from j to e after the sign and the end or a terminator follows them. */
  lemma ParseGeomNAt(g: string, i: nat, j: nat, e: nat, v: nat, trmntrs: Option<string>)
    requires i <= j < e <= |g| && AllDigits(g[j..e]) && ParseDecimal(g[j..e]) == v
    requires j == i || (j == i + 1 && (g[i] == '+' || g[i] == '-'))
    requires e == |g| || (!IsDigit(g[e]) && IsTerminator(g[e], trmntrs))
    ensures ParseGeomN(g, i, trmntrs) == Some((if j > i && g[i] == '-' then -(v as int) else v, e))
  {
    assert IsDigit(g[j..e][0]);
    assert SignEnd(g, i) == j;
    ParseGeomNComplete(g, i, e, trmntrs);
  }

  /** Where the pieces of p + s + d + rest sit. */
  lemma NumberShape(p: string, s: string, d: string, rest: string)
    requires SignText(s)
    requires |d| >= 1 && AllDigits(d)
    requires |rest| == 0 || !IsDigit(rest[0])
    ensures var g := p + s + d + rest;
      var j := |p| + |s|;
      j + |d| <= |g| && AllDigits(g[j..j + |d|]) && ParseDecimal(g[j..j + |d|]) == ParseDecimal(d)
      && (|s| == 1 ==> g[|p|] == s[0])
      && (j + |d| == |g| || (|rest| > 0 && g[j + |d|] == rest[0]))
  {
    var g := p + s + d + rest;
    assert g == (p + s) + d + rest;
    DigitsInConcat(p + s, d, rest);
    if |rest| > 0 {
      assert g[|p| + |s| + |d|] == rest[0];
    }
    if |s| == 1 {
      assert g[|p|] == s[0];
    }
  }

  /**
   * check_geom_offsets(g + i): a number ended by '+' or '-', then a signed
   * number that runs to the end of the string.
   */
  function CheckGeomOffsets(g: string, i: nat): bool
    requires i <= |g|
  {
    match ParseGeomN(g, i, Some("+-"))
    case None => false
    case Some((_, k)) => k < |g| && (g[k] == '+' || g[k] == '-') && ParseGeomN(g, k, None).Some?
  }

  /** Two offsets as X geometry writes them pass check_geom_offsets, at the end of any prefix. */
  lemma CheckOffsetsOf(p: string, x: int, y: int)
    ensures CheckGeomOffsets(p + (Offset(x) + Offset(y)), |p|)
  {
    SplitAfter(p, Offset(x), Offset(y));
    CheckOffsetsAt(p + (Offset(x) + Offset(y)), |p|, x, y);
  }

  /** The same for any string holding the two offsets from i to its end. */
  lemma CheckOffsetsAt(g: string, i: nat, x: int, y: int)
    requires i + |Offset(x)| + |Offset(y)| == |g|
    requires g[i..i + |Offset(x)|] == Offset(x) && g[i + |Offset(x)|..|g|] == Offset(y)
    ensures CheckGeomOffsets(g, i)
  {
    var k := i + |Offset(x)|;
    assert g[k] == Offset(y)[0] == SignOf(y)[0];
    OffsetAt(g, i, x, Some("+-"));
    OffsetAt(g, k, y, None);
  }

  /** Where b and c sit in a + (b + c). */
  lemma SplitAfter(a: string, b: string, c: string)
    ensures var g := a + (b + c);
      |g| == |a| + |b| + |c| && g[|a|..|a| + |b|] == b && g[|a| + |b|..|a| + |b| + |c|] == c
      && (|c| > 0 ==> g[|a| + |b|] == c[0])
  {
  }

  /**
   * What the geometry branch leaves: the geometry string (kept, or freed
   * and set to NULL), the columns and rows when it gave a size
   * (size_on_cli), and whether the "Invalid geometry specification"
   * warning is shown.
   */
  datatype GeomOutcome = GeomOutcome(geom: Option<string>, size: Option<(int, int)>, warned: bool)

  /** The code as written can dereference NULL instead of finishing. */
  datatype AsWritten = NullDeref | Finished(outcome: GeomOutcome)

  /**
   * The geometry branch of roxterm_data_new as written. A height that
   * does not parse leaves g NULL, and the following *g reads through it;
   * and the warning tests geom (never NULL there) instead of *geom, so it
   * is never shown. Only a NULL string skips the branch: an empty one
   * enters it and fails to parse as a width.
   */
  function GeometryAsWritten(geom: Option<string>): AsWritten
  {
    if geom.None? then Finished(GeomOutcome(geom, None, false))
    else
      var g := geom.value;
      if g != [] && (g[0] == '+' || g[0] == '-') then
        Finished(GeomOutcome(if CheckGeomOffsets(g, 0) then geom else None, None, false))
      else
        var wp := ParseGeomN(g, 0, Some("x"));
        if wp.None? || wp.value.1 == |g| || g[wp.value.1] != 'x' then Finished(GeomOutcome(None, None, false))
        else
          var hp := ParseGeomN(g, wp.value.1 + 1, Some("+-"));
          if hp.None? then NullDeref
          else if hp.value.1 < |g| && !CheckGeomOffsets(g, hp.value.1) then Finished(GeomOutcome(None, None, false))
          else Finished(GeomOutcome(geom, Some((wp.value.0, hp.value.0)), false))
  }

  /** "80x" and "80xy" make the code as written read through a NULL pointer. */
  lemma GeometryAsWrittenDereferencesNull()
    ensures GeometryAsWritten(Some("80x")) == NullDeref
    ensures GeometryAsWritten(Some("80xy")) == NullDeref
  {
    ParseGeomNOfNumber([], [], 80, "x", Some("x"));
    assert NatToString(80) == "80";
    assert [] + [] + "80" + "x" == "80x";
    ParseGeomNOfNumber([], [], 80, "xy", Some("x"));
    assert [] + [] + "80" + "xy" == "80xy";
  }

  /** An invalid geometry such as "80", or an empty one, is dropped by the code as written without the warning. */
  lemma GeometryAsWrittenSilent()
    ensures GeometryAsWritten(Some("80")) == Finished(GeomOutcome(None, None, false))
    ensures GeometryAsWritten(Some("")) == Finished(GeomOutcome(None, None, false))
    ensures Geometry(Some("")) == GeomOutcome(None, None, true)
  {
    ParseGeomNOfNumber([], [], 80, [], Some("x"));
    assert NatToString(80) == "80";
    assert [] + [] + "80" + [] == "80";
  }

  /**
   * The geometry branch as evidently intended: a height that does not
   * parse rejects the geometry like every other error, and the warning is
   * shown whenever a given geometry is rejected, an empty one included.
   */
  function Geometry(geom: Option<string>): GeomOutcome
  {
    if geom.None? then GeomOutcome(geom, None, false)
    else
      var g := geom.value;
      if g != [] && (g[0] == '+' || g[0] == '-') then
        (if CheckGeomOffsets(g, 0) then GeomOutcome(geom, None, false) else GeomOutcome(None, None, true))
      else
        var wp := ParseGeomN(g, 0, Some("x"));
        if wp.None? || wp.value.1 == |g| || g[wp.value.1] != 'x' then GeomOutcome(None, None, true)
        else
          var hp := ParseGeomN(g, wp.value.1 + 1, Some("+-"));
          if hp.None? then GeomOutcome(None, None, true)
          else if hp.value.1 < |g| && !CheckGeomOffsets(g, hp.value.1) then GeomOutcome(None, None, true)
          else GeomOutcome(geom, Some((wp.value.0, hp.value.0)), false)
  }

  /**
   * The geometry string is kept as it is or dropped, never altered; a
   * size comes only with a kept string; the warning is shown exactly when
   * a given geometry is dropped; and wherever the code as written
   * finishes, it keeps and sizes exactly as the corrected branch does.
   */
  lemma GeometrySpec(geom: Option<string>)
    ensures var r := Geometry(geom);
      (r.geom.Some? ==> r.geom == geom)
      && (r.size.Some? ==> r.geom == geom)
      && (r.warned <==> geom.Some? && r.geom.None?)
    ensures GeometryAsWritten(geom).Finished? ==>
      GeometryAsWritten(geom).outcome.geom == Geometry(geom).geom
      && GeometryAsWritten(geom).outcome.size == Geometry(geom).size
  {
  }

  /** A size as X geometry writes it: WxH, optionally followed by two offsets. */
  function SizeGeometry(w: nat, h: nat, offsets: Option<(int, int)>): string
  {
    NatToString(w) + "x" + NatToString(h) + OffsetsText(offsets)
  }

  /** The two offsets that may follow a size, or nothing. */
  function OffsetsText(offsets: Option<(int, int)>): string
  {
    if offsets.Some? then Offset(offsets.value.0) + Offset(offsets.value.1) else []
  }

  /** A well-formed WxH[±X±Y] is kept and gives W columns and H rows, with no warning. */
  lemma GeometryOfSize(w: nat, h: nat, offsets: Option<(int, int)>)
    ensures Geometry(Some(SizeGeometry(w, h, offsets)))
         == GeomOutcome(Some(SizeGeometry(w, h, offsets)), Some((w, h)), false)
  {
    ParseNatToString(w);
    ParseNatToString(h);
    SizeText(NatToString(w), NatToString(h), w, h, offsets);
  }

  /** The same for any digits of W and H, followed by nothing or by two offsets. */
  lemma SizeText(wd: string, hd: string, w: nat, h: nat, offsets: Option<(int, int)>)
    requires |wd| >= 1 && AllDigits(wd) && ParseDecimal(wd) == w
    requires |hd| >= 1 && AllDigits(hd) && ParseDecimal(hd) == h
    ensures var g := wd + "x" + hd + OffsetsText(offsets);
      Geometry(Some(g)) == GeomOutcome(Some(g), Some((w, h)), false)
  {
    var p := wd + "x" + hd;
    var ot := OffsetsText(offsets);
    var g := p + ot;
    var k2 := |wd| + 1 + |hd|;
    Pieces(wd, "x", hd, ot);
    if offsets.Some? {
      var (x, y) := offsets.value;
      assert ot == Offset(x) + Offset(y);
      CheckOffsetsOf(p, x, y);
      assert g[k2] == ot[0] == SignOf(x)[0];
    }
    SizeParses(g, wd, hd, w, h);
    SizeAccepted(g, w, h, |wd|, k2);
  }

  /** In a string holding the digits of W, 'x' and the digits of H, then the end or a sign, parse_geom_n reads W up to the 'x' and H up to the end or the sign. */
  lemma SizeParses(g: string, wd: string, hd: string, w: nat, h: nat)
    requires |wd| >= 1 && AllDigits(wd) && ParseDecimal(wd) == w
    requires |hd| >= 1 && AllDigits(hd) && ParseDecimal(hd) == h
    requires var k2 := |wd| + 1 + |hd|;
      k2 <= |g| && g[0..|wd|] == wd && g[|wd|] == 'x' && g[|wd| + 1..k2] == hd
      && (k2 == |g| || g[k2] == '+' || g[k2] == '-')
    ensures IsDigit(g[0])
    ensures ParseGeomN(g, 0, Some("x")) == Some((w as int, |wd|))
    ensures ParseGeomN(g, |wd| + 1, Some("+-")) == Some((h as int, |wd| + 1 + |hd|))
  {
    var k := |wd|;
    var k2 := k + 1 + |hd|;
    assert g[0] == wd[0];
    SignTerminates(g[k]);
    UnsignedAt(g, 0, wd, w, Some("x"));
    if k2 < |g| {
      SignTerminates(g[k2]);
    }
    UnsignedAt(g, k + 1, hd, h, Some("+-"));
  }

  /** Where a, b, c and the first character of rest sit in a + b + c + rest. */
  lemma Pieces(a: string, b: string, c: string, rest: string)
    ensures var g := a + b + c + rest;
      var k2 := |a| + |b| + |c|;
      |g| == k2 + |rest| && g[0..|a|] == a && g[|a|..|a| + |b|] == b && g[|a| + |b|..k2] == c
      && (|rest| > 0 ==> g[k2] == rest[0])
      && (|a| > 0 ==> g[0] == a[0]) && (|b| > 0 ==> g[|a|] == b[0])
  {
    var g := a + b + c + rest;
    assert g == (a + b + c) + rest;
  }

  /** 'x' ends a width, and '+' or '-' ends a height. */
  lemma SignTerminates(c: char)
    ensures c == 'x' ==> !IsDigit(c) && IsTerminator(c, Some("x"))
    ensures c == '+' || c == '-' ==> !IsDigit(c) && IsTerminator(c, Some("+-"))
  {
    assert "+-"[0] == '+' && "+-"[1] == '-';
  }

  /** Digits written without a sign at i of g read back as their value when the end of g or a terminator follows them. */
  lemma UnsignedAt(g: string, i: nat, d: string, v: nat, trmntrs: Option<string>)
    requires |d| >= 1 && AllDigits(d) && ParseDecimal(d) == v
    requires i + |d| <= |g| && g[i..i + |d|] == d
    requires i + |d| == |g| || (!IsDigit(g[i + |d|]) && IsTerminator(g[i + |d|], trmntrs))
    ensures ParseGeomN(g, i, trmntrs) == Some((v, i + |d|))
  {
    ParseGeomNAt(g, i, i, i + |d|, v, trmntrs);
  }

  /** What may follow the height: the end of the string, or offsets that check_geom_offsets accepts. */
  predicate EndOrOffsets(g: string, k: nat)
  {
    k == |g| || (k < |g| && CheckGeomOffsets(g, k))
  }

  /** A width up to an 'x', then a height up to the end or to valid offsets, is kept as a size. */
  lemma SizeAccepted(g: string, w: int, h: int, k: nat, k2: nat)
    requires 0 < k < |g| && IsDigit(g[0]) && g[k] == 'x'
    requires ParseGeomN(g, 0, Some("x")) == Some((w, k))
    requires k + 1 <= |g| && ParseGeomN(g, k + 1, Some("+-")) == Some((h, k2))
    requires EndOrOffsets(g, k2)
    ensures Geometry(Some(g)) == GeomOutcome(Some(g), Some((w, h)), false)
  {
  }

  /** Offsets alone (±X±Y) are kept, with no size and no warning. */
  lemma GeometryOfOffsets(x: int, y: int)
    ensures Geometry(Some(Offset(x) + Offset(y))) == GeomOutcome(Some(Offset(x) + Offset(y)), None, false)
  {
    CheckOffsetsOf([], x, y);
    assert [] + (Offset(x) + Offset(y)) == Offset(x) + Offset(y);
  }

  /** The height may carry a sign of its own: "80x-24" is taken as 80 columns and -24 rows. */
  lemma GeometrySignedHeight()
    ensures Geometry(Some("80x-24")).size == Some((80, -24))
  {
    var g := "80x-24";
    assert NatToString(80) == "80";
    assert NatToString(24) == "24";
    assert g == [] + [] + "80" + "x-24";
    ParseGeomNOfNumber([], [], 80, "x-24", Some("x"));
    assert g == "80x" + "-" + "24" + [];
    ParseGeomNOfNumber("80x", "-", 24, [], Some("+-"));
  }
}
