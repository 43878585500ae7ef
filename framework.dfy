/**
 * `Switchboard`: the application-wide settings table with typed accessors,
 * and the `shallrun` flag that tells every part of the application whether
 * to keep running. The Java class keeps both in static fields; here they are
 * the fields of one `Switchboard` object.
 */
module Framework {
  import opened Wrappers
  import opened JavaLang

  /** A `java.io.File`, known by its path string. */
  datatype File = File(path: string)

  /** The string `set(key, boolean)` stores. */
  function BoolToString(b: bool): string {
    if b then "true" else "false"
  }

  /** How `getBool` reads a stored string. */
  predicate ParseBool(s: string) {
    s == "true" || s == "1"
  }

  /** What `set(key, boolean)` wrote, `getBool` reads back. */
  lemma ParseBoolOfToString(b: bool)
    ensures ParseBool(BoolToString(b)) == b
  {
  }

  class Switchboard {
    /** `true` until `shutdown()` is called; never set back. */
    var shallrun: bool
    /** The global `Properties` table. */
    var properties: map<string, string>

    /** The state before any `load` or `set`: running, no properties. */
    constructor ()
      ensures shallrun && properties == map[]
    {
      shallrun := true;
      properties := map[];
    }

    /** `shallrun()` */
    function ShallRun(): (r: bool)
      reads this
      ensures r <==> shallrun
    {
      shallrun
    }

    /** `shutdown()`: the termination signal; it cannot be undone. */
    method Shutdown()
      modifies this
      ensures !shallrun
      ensures properties == old(properties)
    {
      shallrun := false;
    }

    /** `get(key)`: the stored string, or null when the key is absent. */
    function Get(key: string): (r: Option<string>)
      reads this
      ensures r.Some? <==> key in properties
      ensures r.Some? ==> r.value == properties[key]
    {
      if key in properties then Some(properties[key]) else None
    }

    /** `get(key, dflt)`: the stored string, or `dflt` when the key is absent. */
    function GetOr(key: string, dflt: string): (r: string)
      reads this
      ensures key !in properties ==> r == dflt
      ensures key in properties ==> r == properties[key]
    {
      Get(key).GetOr(dflt)
    }

    /**
     * `getInt(key, dflt)`: `dflt` when the key is absent, else the stored
     * string parsed as an `int`; `None` is the `NumberFormatException` the
     * parse throws on a string that is not one.
     */
    function GetInt(key: string, dflt: int32): (r: Option<int32>)
      reads this
      ensures key !in properties ==> r == Some(dflt)
      ensures key in properties ==> r == ParseInt(properties[key])
    {
      if key !in properties then Some(dflt) else ParseInt(properties[key])
    }

    /** `getBool(key, dflt)`: `dflt` when the key is absent, else whether the stored string is "true" or "1". */
    function GetBool(key: string, dflt: bool): (r: bool)
      reads this
      ensures key !in properties ==> r == dflt
      ensures key in properties ==> (r <==> properties[key] == "true" || properties[key] == "1")
    {
      if key !in properties then dflt else ParseBool(properties[key])
    }

    /**
     * `getFile(key)`: null when the key is absent, else a file for the stored
     * path. The `replace` of '/' by the platform separator is computed and
     * discarded in the source, so the path is used as stored.
     */
    function GetFile(key: string): (r: Option<File>)
      reads this
      ensures r.None? <==> key !in properties
      ensures r.Some? ==> r.value.path == properties[key]
    {
      match Get(key)
      case None => None
      case Some(s) => Some(File(s))
    }

    /** `set(key, value)` for a string value. */
    method Set(key: string, value: string)
      modifies this
      ensures properties == old(properties)[key := value]
      ensures shallrun == old(shallrun)
      ensures Get(key) == Some(value)
      ensures forall k :: k != key ==> Get(k) == old(Get(k))
    {
      properties := properties[key := value];
    }

    /** `set(key, int)`: stores `Integer.toString(value)`, which `getInt` reads back. */
    method SetInt(key: string, value: int32)
      modifies this
      ensures properties == old(properties)[key := IntToString(value)]
      ensures shallrun == old(shallrun)
      ensures forall dflt :: GetInt(key, dflt) == Some(value)
      ensures forall k :: k != key ==> Get(k) == old(Get(k))
    {
      properties := properties[key := IntToString(value)];
      ParseIntOfToString(value);
    }

    /** `set(key, boolean)`: stores "true" or "false", which `getBool` reads back. */
    method SetBool(key: string, value: bool)
      modifies this
      ensures properties == old(properties)[key := BoolToString(value)]
      ensures shallrun == old(shallrun)
      ensures forall dflt :: GetBool(key, dflt) == value
      ensures forall k :: k != key ==> Get(k) == old(Get(k))
    {
      properties := properties[key := BoolToString(value)];
      ParseBoolOfToString(value);
    }
  }
}
