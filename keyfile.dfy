/**
 * The part of GLib's GKeyFile that the option files rely on: values
 * stored under (group, key), strings read back as they were set, and
 * integers written with %d and read back with strtol. GKeyFile itself is
 * not part of the repository; this is its documented behaviour.
 */
module KeyFiles {
  import opened Wrappers
  import opened Decimal

  const INT_MIN: int := -0x8000_0000
  const INT_MAX: int := 0x7FFF_FFFF

  /** Why a lookup fails: the group or key is missing, or the value is not a number. */
  datatype KeyFileError = NotFound | InvalidValue

  type Entries = map<(string, string), string>

  /**
   * g_key_file_get_integer's parse of a value: strtol must be followed by
   * the end of the value or white space, the value must not be empty,
   * and the number must fit an int.
   */
  function ParseInteger(value: string): (r: Result<int, KeyFileError>)
    ensures r.Ok? ==> INT_MIN <= r.value <= INT_MAX
  {
    if value == [] then Err(InvalidValue)
    else
      var (v, e) := Strtol(value, 0);
      if e < |value| && !IsSpace(value[e]) then Err(InvalidValue)
      else if v < INT_MIN || v > INT_MAX then Err(InvalidValue)
      else Ok(v)
  }

  /** An int written with %d parses back to itself. */
  lemma ParseIntegerOfIntToString(v: int)
    requires INT_MIN <= v <= INT_MAX
    ensures ParseInteger(IntToString(v)) == Ok(v)
  {
    StrtolIntToString(v);
  }

  /** g_key_file_get_string on the entries: the value, or NotFound. */
  function GetString(entries: Entries, group: string, key: string): (r: Result<string, KeyFileError>)
    ensures r.Ok? <==> (group, key) in entries
    ensures r.Ok? ==> r.value == entries[(group, key)]
  {
    if (group, key) in entries then Ok(entries[(group, key)]) else Err(NotFound)
  }

  /** A string set under a key reads back from it, and every other key reads as before. */
  lemma GetStringAfterSet(entries: Entries, group: string, key: string, value: string, g: string, k: string)
    ensures GetString(entries[(group, key) := value], group, key) == Ok(value)
    ensures (g, k) != (group, key) ==> GetString(entries[(group, key) := value], g, k) == GetString(entries, g, k)
  {
  }

  /** g_key_file_get_integer on the entries. */
  function GetInteger(entries: Entries, group: string, key: string): Result<int, KeyFileError>
  {
    if (group, key) in entries then ParseInteger(entries[(group, key)]) else Err(NotFound)
  }

  /** A GKeyFile: its entries change in place. */
  class KeyFile {
    var entries: Entries

    /** g_key_file_new: no groups, no keys. */
    constructor ()
      ensures entries == map[]
    {
      entries := map[];
    }

    /** A key file read from disk, given as the entries it holds. */
    constructor Loaded(stored: Entries)
      ensures entries == stored
    {
      entries := stored;
    }

    /** g_key_file_set_string: the key holds value; nothing else changes. */
    method SetString(group: string, key: string, value: string)
      modifies this
      ensures entries == old(entries)[(group, key) := value]
    {
      entries := entries[(group, key) := value];
    }

    /** g_key_file_set_integer: the key holds the %d text of value. */
    method SetInteger(group: string, key: string, value: int)
      modifies this
      ensures entries == old(entries)[(group, key) := IntToString(value)]
    {
      entries := entries[(group, key) := IntToString(value)];
    }
  }
}
