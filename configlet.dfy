/**
 * The configuration manager's bookkeeping (src/configlet.c): the names it
 * derives from an option family, which items count as the user's own,
 * which name is configured, and the lock counters that keep the delete
 * and rename buttons insensitive while an editor has a scheme open.
 */
module Configlet {
  import opened Wrappers
  import opened Options
  import OptsFile

  /** tolower in the C locale. */
  function ToLower(c: char): (r: char)
    ensures 'A' <= c <= 'Z' ==> r as int == c as int + 32
    ensures !('A' <= c <= 'Z') ==> r == c
    ensures !('A' <= r <= 'Z')
    ensures 'a' <= r <= 'z' <==> 'a' <= c <= 'z' || 'A' <= c <= 'Z'
  {
    if 'A' <= c <= 'Z' then (c as int + 32) as char else c
  }

  /**
   * convert_family_name: a name starting with 'P' loses its last
   * character ("Profiles" becomes "profile"), then the first character
   * is lower-cased.
   */
  function ConvertFamilyName(family: string): (r: string)
    ensures |r| == (if family != [] && family[0] == 'P' then |family| - 1 else |family|)
    ensures r != [] ==> r[0] == ToLower(family[0]) && r[1..] == family[1..|r|]
  {
    var stripped := if family != [] && family[0] == 'P' then family[..|family| - 1] else family;
    if stripped == [] then [] else [ToLower(stripped[0])] + stripped[1..]
  }

  /** The four families give the four button base names the sensitivity code knows. */
  lemma ConvertFamilyNames()
    ensures ConvertFamilyName("Profiles") == "profile"
    ensures ConvertFamilyName("Colours") == "colours"
    ensures ConvertFamilyName("Shortcuts") == "shortcuts"
    ensures ConvertFamilyName("encodings") == "encodings"
  {
    assert "Profiles"[..7] == "Profile";
    assert [ToLower('P')] + "Profile"[1..] == "profile";
    assert [ToLower('C')] + "Colours"[1..] == "colours";
    assert [ToLower('S')] + "Shortcuts"[1..] == "shortcuts";
    assert [ToLower('e')] + "encodings"[1..] == "encodings";
  }

  /** The families of options the configuration manager lists. */
  datatype Family = Profiles | Colours | Shortcuts | Encodings

  /** A family's directory name, as the option files call it. */
  function FamilyDir(f: Family): string
  {
    match f
    case Profiles => "Profiles"
    case Colours => "Colours"
    case Shortcuts => "Shortcuts"
    case Encodings => "encodings"
  }

  /**
   * Each family's directory name converts to a non-empty, lower-case base
   * name, and no two families share one, so a button name built from the
   * base identifies its family.
   */
  lemma {:induction false} FamilyBaseNamesDistinct(f: Family, g: Family)
    ensures var b := ConvertFamilyName(FamilyDir(f));
      b != [] && !('A' <= b[0] <= 'Z')
    ensures ConvertFamilyName(FamilyDir(f)) == ConvertFamilyName(FamilyDir(g)) ==> f == g
  {
    ConvertFamilyNames();
  }

  /** The family a directory name stands for, if any. */
  function FamilyOf(family: string): (r: Option<Family>)
    ensures r.Some? ==> FamilyDir(r.value) == family
  {
    if family == "Profiles" then Some(Profiles)
    else if family == "Colours" then Some(Colours)
    else if family == "Shortcuts" then Some(Shortcuts)
    else if family == "encodings" then Some(Encodings)
    else None
  }

  /**
   * family_name_to_opt_key: the global option naming the selected item of
   * the family; NULL for an unknown family.
   */
  function FamilyNameToOptKey(family: string): Option<string>
  {
    match FamilyOf(family)
    case Some(Profiles) => Some("profile")
    case Some(Colours) => Some("colour_scheme")
    case Some(Shortcuts) => Some("shortcut_scheme")
    case Some(Encodings) => Some("encoding")
    case None => None
  }

  /** Exactly the four family names have an option key, and the four keys differ. */
  lemma FamilyNameToOptKeySpec(family: string)
    ensures FamilyNameToOptKey(family).Some? <==> family in {"Profiles", "Colours", "Shortcuts", "encodings"}
    ensures forall f, g :: FamilyNameToOptKey(FamilyDir(f)) == FamilyNameToOptKey(FamilyDir(g)) ==> f == g
  {
    assert FamilyOf(FamilyDir(Profiles)) == Some(Profiles);
    assert FamilyOf(FamilyDir(Colours)) == Some(Colours);
    assert FamilyOf(FamilyDir(Shortcuts)) == Some(Shortcuts);
    assert FamilyOf(FamilyDir(Encodings)) == Some(Encodings);
  }

  /**
   * configlet_get_configured_name: the name stored under the family's
   * option key, or "GTK" for colour schemes and "Default" for the others
   * when none is stored; NULL for an unknown family.
   */
  function ConfiguredName(options: Options, family: string): Option<string>
    reads options, options.kf
  {
    match FamilyNameToOptKey(family)
    case None => None
    case Some(key) => options.LookupStringWithDefault(key, Some(if family != "Colours" then "Default" else "GTK"))
  }

  /** With nothing stored under its key, a colour scheme defaults to "GTK" and every other family to "Default". */
  lemma ConfiguredNameDefaults(options: Options, f: Family)
    requires var key := FamilyNameToOptKey(FamilyDir(f)).value;
      (options.groupName, key) !in options.Entries()
    ensures ConfiguredName(options, FamilyDir(f)) == Some(if f == Colours then "GTK" else "Default")
  {
    assert FamilyOf(FamilyDir(f)) == Some(f);
  }

  /**
   * is_in_user_dir: an encoding is the user's own unless it is "Default";
   * an item of another family is when the file found for it is the one it
   * would be saved to (both paths are given, as the option-file search
   * finds them).
   */
  function IsInUserDir(family: string, name: string, foundPath: Option<string>, savePath: string): bool
  {
    if family == "encodings" then name != "Default"
    else foundPath == Some(savePath)
  }

  /** Every encoding but "Default" counts as the user's, wherever the files are. */
  lemma EncodingsInUserDir(name: string, foundPath: Option<string>, savePath: string)
    ensures IsInUserDir("encodings", name, foundPath, savePath) <==> name != "Default"
  {
  }

  /** The lock counters profile_lock, colours_lock, shortcuts_lock and encodings_lock. */
  class ConfigletLocks {
    var profileLock: int
    var coloursLock: int
    var shortcutsLock: int
    var encodingsLock: int

    /** No counter is ever below 0. */
    ghost predicate Valid()
      reads this
    {
      profileLock >= 0 && coloursLock >= 0 && shortcutsLock >= 0 && encodingsLock >= 0
    }

    constructor ()
      ensures Valid()
      ensures Count(Profiles) == 0 && Count(Colours) == 0 && Count(Shortcuts) == 0 && Count(Encodings) == 0
    {
      profileLock := 0;
      coloursLock := 0;
      shortcutsLock := 0;
      encodingsLock := 0;
    }

    /** The counter of a family. */
    function Count(f: Family): int
      reads this
    {
      match f
      case Profiles => profileLock
      case Colours => coloursLock
      case Shortcuts => shortcutsLock
      case Encodings => encodingsLock
    }

    /** configlet_lock_profiles and its siblings: the family's counter goes up by one. */
    method Lock(f: Family)
      requires Valid()
      modifies this
      ensures Valid()
      ensures Count(f) == old(Count(f)) + 1
      ensures forall g :: g != f ==> Count(g) == old(Count(g))
    {
      match f
      case Profiles => profileLock := profileLock + 1;
      case Colours => coloursLock := coloursLock + 1;
      case Shortcuts => shortcutsLock := shortcutsLock + 1;
      case Encodings => encodingsLock := encodingsLock + 1;
    }

    /**
     * configlet_unlock_profiles and its siblings: the family's counter goes
     * down by one, and back to 0 if that takes it below 0.
     */
    method Unlock(f: Family)
      requires Valid()
      modifies this
      ensures Valid()
      ensures Count(f) == if old(Count(f)) > 0 then old(Count(f)) - 1 else 0
      ensures forall g :: g != f ==> Count(g) == old(Count(g))
    {
      match f {
        case Profiles =>
          profileLock := profileLock - 1;
          if profileLock < 0 {
            profileLock := 0;
          }
        case Colours =>
          coloursLock := coloursLock - 1;
          if coloursLock < 0 {
            coloursLock := 0;
          }
        case Shortcuts =>
          shortcutsLock := shortcutsLock - 1;
          if shortcutsLock < 0 {
            shortcutsLock := 0;
          }
        case Encodings =>
          encodingsLock := encodingsLock - 1;
          if encodingsLock < 0 {
            encodingsLock := 0;
          }
      }
    }

    /**
     * configlet_set_sensitive: the sensitivity given to both the delete and
     * the rename button of a list, or None when nothing is set (no dialog,
     * or a base name it does not know).
     */
    function ButtonSensitivity(wbasename: string, sensitive: bool, haveDialog: bool): Option<bool>
      reads this
    {
      if !haveDialog then None
      else if wbasename == "profile" then Some(profileLock == 0 && sensitive)
      else if wbasename == "colours" then Some(coloursLock == 0 && sensitive)
      else if wbasename == "shortcuts" then Some(shortcutsLock == 0 && sensitive)
      else if wbasename == "encodings" then Some(encodingsLock == 0 && sensitive)
      else None
    }

    /**
     * shade_actions_for_name: for a family's list, the buttons are
     * sensitive exactly when its counter is 0 and the item is the user's.
     */
    lemma ShadeActions(f: Family, name: string, foundPath: Option<string>, savePath: string)
      ensures ButtonSensitivity(ConvertFamilyName(FamilyDir(f)), IsInUserDir(FamilyDir(f), name, foundPath, savePath), true)
        == Some(Count(f) == 0 && IsInUserDir(FamilyDir(f), name, foundPath, savePath))
    {
      ConvertFamilyNames();
    }
  }

  /** A lock followed by an unlock leaves the counter as it was. */
  method LockUnlockBalance(locks: ConfigletLocks, f: Family)
    requires locks.Valid()
    modifies locks
    ensures locks.Valid() && locks.Count(f) == old(locks.Count(f))
  {
    locks.Lock(f);
    locks.Unlock(f);
  }

  /** After an unlock on a counter already at 0, one lock is enough to make the buttons insensitive. */
  method ExtraUnlockHarmless(locks: ConfigletLocks, f: Family)
    requires locks.Valid() && locks.Count(f) == 0
    modifies locks
    ensures locks.Valid() && locks.Count(f) == 1
  {
    locks.Unlock(f);
    locks.Lock(f);
  }
}
