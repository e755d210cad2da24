/**
 * IniSection: a name (null by default) and a Properties dictionary. The dictionary
 * is kept as its entries in enumeration order; the INI reader only ever adds
 * entries at the end or replaces a value in place, which is exactly how a
 * Dictionary without removals enumerates.
 */
module IniSections {
  import opened Wrappers
  import opened Text

  /** One key/value pair of Properties. */
  datatype Entry = Entry(key: string, value: string)

  datatype Section = Section(name: Option<string>, properties: seq<Entry>) {

    /** The indexer this[key]: the value under exactly `key` (case matters), or null. */
    function Get(key: string): (r: Option<string>)
      ensures r.Some? <==> exists i | 0 <= i < |properties| :: properties[i].key == key
      ensures r.Some? ==> exists i | 0 <= i < |properties| :: properties[i] == Entry(key, r.value)
    {
      match KeyIndex(properties, key)
      case Some(i) => Some(properties[i].value)
      case None => None
    }
  }

  /** new IniSection(name): the given name and an empty Properties dictionary. */
  function NewSection(name: Option<string>): (s: Section)
    ensures s.name == name && |s.properties| == 0
  {
    Section(name, [])
  }

  /** No key occurs twice (Dictionary compares keys exactly). */
  predicate DistinctKeys(entries: seq<Entry>) {
    forall i, j | 0 <= i < j < |entries| :: entries[i].key != entries[j].key
  }

  /** No two keys are equal once upper-cased: what the INI reader maintains. */
  predicate DistinctKeysIgnoringCase(entries: seq<Entry>) {
    forall i, j | 0 <= i < j < |entries| :: !EqualsIgnoringCase(entries[i].key, entries[j].key)
  }

  /** Where(i => i.Key == key).FirstOrDefault(): the first entry whose key is exactly `key`. */
  function KeyIndex(entries: seq<Entry>, key: string): (r: Option<nat>)
    ensures r.Some? ==> r.value < |entries| && entries[r.value].key == key
    ensures r.Some? ==> forall j | 0 <= j < r.value :: entries[j].key != key
    ensures r.None? ==> forall j | 0 <= j < |entries| :: entries[j].key != key
  {
    if entries == [] then None
    else if entries[0].key == key then Some(0)
    else match KeyIndex(entries[1..], key)
      case Some(i) => Some(i + 1)
      case None => None
  }

  /** Where(i => i.Key.ToUpperInvariant() == key.ToUpperInvariant()).FirstOrDefault(). */
  function KeyIndexIgnoringCase(entries: seq<Entry>, key: string): (r: Option<nat>)
    ensures r.Some? ==> r.value < |entries| && EqualsIgnoringCase(entries[r.value].key, key)
    ensures r.Some? ==> forall j | 0 <= j < r.value :: !EqualsIgnoringCase(entries[j].key, key)
    ensures r.None? ==> forall j | 0 <= j < |entries| :: !EqualsIgnoringCase(entries[j].key, key)
  {
    if entries == [] then None
    else if EqualsIgnoringCase(entries[0].key, key) then Some(0)
    else match KeyIndexIgnoringCase(entries[1..], key)
      case Some(i) => Some(i + 1)
      case None => None
  }

  /** With distinct keys the indexer finds the one entry holding the key: it returns
      Some(v) exactly when Entry(key, v) is in Properties, so it matches at most one entry. */
  lemma {:induction false} GetFindsTheEntry(s: Section, key: string, v: string)
    requires DistinctKeys(s.properties)
    ensures s.Get(key) == Some(v) <==> Entry(key, v) in s.properties
  {
    if Entry(key, v) in s.properties {
      var i :| 0 <= i < |s.properties| && s.properties[i] == Entry(key, v);
      var k := KeyIndex(s.properties, key);
      assert k.Some? && k.value <= i;
    }
  }
}
