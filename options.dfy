/**
 * An Options object (src/options.c): a named, reference-counted set of
 * options kept in a key file under one group.
 */
module Options {
  import opened Wrappers
  import opened KeyFiles
  import opened FileNames
  import opened CStrings
  import opened Decimal
  import OptsFile

  class Options {
    var name: string
    const groupName: string
    var ref: int
    var kf: KeyFile?
    /** Whether options_delete has run (the key file and the object are freed). */
    var freed: bool

    /** A live object has at least one reference. */
    predicate Valid()
      reads this
    {
      !freed && ref >= 1
    }

    /**
     * options_open: one reference, named by the leafname, with the key file
     * that options_file_open yields for it (given as loaded).
     */
    constructor Open(leafname: string, group: string, loaded: KeyFile)
      ensures Valid()
      ensures name == leafname && groupName == group && ref == 1 && kf == loaded
    {
      name := leafname;
      groupName := group;
      ref := 1;
      kf := loaded;
      freed := false;
    }

    /** options_ref: one more reference. */
    method Ref()
      requires Valid()
      modifies this
      ensures Valid() && ref == old(ref) + 1
      ensures name == old(name) && kf == old(kf)
    {
      ref := ref + 1;
    }

    /** options_unref: one reference fewer; the object is freed, and the result TRUE, exactly when none is left. */
    method Unref() returns (gone: bool)
      requires Valid()
      modifies this
      ensures ref == old(ref) - 1
      ensures gone <==> ref == 0
      ensures freed <==> gone
      ensures gone ==> kf == null
      ensures !gone ==> Valid() && kf == old(kf)
      ensures name == old(name)
    {
      ref := ref - 1;
      if ref == 0 {
        kf := null;
        freed := true;
        return true;
      }
      return false;
    }

    /**
     * options_set_string: the key holds the value, or "" for NULL; a key
     * file is created first when there is none.
     */
    method SetString(key: string, value: Option<string>)
      modifies this, kf
      ensures kf != null
      ensures old(kf) != null ==> kf == old(kf)
      ensures old(kf) == null ==> fresh(kf)
      ensures kf.entries == (if old(kf) == null then map[] else old(kf.entries))[(groupName, key) := if value.Some? then value.value else ""]
      ensures name == old(name) && ref == old(ref) && freed == old(freed)
    {
      if kf == null {
        kf := new KeyFile();
      }
      kf.SetString(groupName, key, if value.Some? then value.value else "");
    }

    /** options_set_int: the key holds the %d text of value; a key file is created first when there is none. */
    method SetInt(key: string, value: int)
      modifies this, kf
      ensures kf != null
      ensures old(kf) != null ==> kf == old(kf)
      ensures old(kf) == null ==> fresh(kf)
      ensures kf.entries == (if old(kf) == null then map[] else old(kf.entries))[(groupName, key) := IntToString(value)]
      ensures name == old(name) && ref == old(ref) && freed == old(freed)
    {
      if kf == null {
        kf := new KeyFile();
      }
      kf.SetInteger(groupName, key, value);
    }

    /** What the key file holds; a missing key file holds nothing. */
    function Entries(): KeyFiles.Entries
      reads this, kf
    {
      if kf == null then map[] else kf.entries
    }

    /** options_lookup_string_with_default: the stored, non-empty string under the key, or the default. */
    function LookupStringWithDefault(key: string, default: Option<string>): Option<string>
      reads this, kf
    {
      OptsFile.LookupStringWithDefault(Entries(), groupName, key, default)
    }

    /** options_get_leafname: the name after its last separator. */
    function GetLeafname(): (r: string)
      reads this
      ensures Separator !in r && |r| <= |name| && r == name[|name| - |r|..]
      ensures Separator in name <==> |r| < |name|
      ensures |r| < |name| ==> name[|name| - |r| - 1] == Separator
    {
      Leafname(name)
    }

    /**
     * options_change_leafname: the directory part is kept and the last
     * component replaced; a name without a separator is replaced whole.
     */
    method ChangeLeafname(newLeaf: string)
      modifies this
      ensures name == ChangedLeafname(old(name), newLeaf)
      ensures ref == old(ref) && kf == old(kf) && freed == old(freed)
    {
      var oldLeaf := StrRChr(name, Separator);
      if oldLeaf.Some? {
        name := BuildFilename(name[..oldLeaf.value], newLeaf);
      } else {
        name := newLeaf;
      }
    }
  }

  /** The name options_change_leafname gives: the directory part joined with the new leaf. */
  function ChangedLeafname(name: string, newLeaf: string): string
  {
    match StrRChr(name, Separator)
    case Some(slash) => BuildFilename(name[..slash], newLeaf)
    case None => newLeaf
  }

  /** After a change, the leafname is the new leaf. */
  lemma ChangedLeafnameIsLeaf(name: string, newLeaf: string)
    requires newLeaf != [] && Separator !in newLeaf
    ensures Leafname(ChangedLeafname(name, newLeaf)) == newLeaf
  {
    match StrRChr(name, Separator)
    case Some(slash) => LeafnameOfBuild(name[..slash], newLeaf);
    case None =>
  }

  /** A change keeps the directory part: a name with a separator keeps what comes before the last one. */
  lemma ChangedLeafnameKeepsDir(name: string, newLeaf: string, slash: nat)
    requires slash < |name| && name[slash] == Separator && Separator !in name[slash + 1..]
    requires newLeaf != [] && Separator !in newLeaf
    requires slash > 0 && name[slash - 1] != Separator
    ensures ChangedLeafname(name, newLeaf) == name[..slash + 1] + newLeaf
  {
    NotAfter(name, slash + 1, Separator);
    StrRChrAt(name, Separator, slash);
    JoinPlain(name[..slash], newLeaf);
    assert name[..slash + 1] == name[..slash] + [Separator];
  }
}
