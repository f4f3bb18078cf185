/**
 * gateway/memory_store.py.  Its first import asks gateway/seedai_storage.py
 * for load_core and save_core, which that module does not define, so the
 * import fails and the fallback pair below, working on seedai/memory/core.json,
 * is the behaviour in force.
 */
module MemoryStore {
  import opened Common

  /** What save_core computes from the loaded value: a dict gets every key of d
      set to d's value; any other value cannot take an item assignment, which
      only matters once d has a key. */
  function Saved(core: Json, d: Obj): (r: Result<Json>)
    ensures r.Ok? <==> core.JObj? || d == map[]
    ensures r.Ok? && core.JObj? ==>
      && r.value.JObj?
      && r.value.fields.Keys == core.fields.Keys + d.Keys
      && (forall k :: k in d ==> r.value.fields[k] == d[k])
      && (forall k :: k in core.fields && k !in d ==> r.value.fields[k] == core.fields[k])
    ensures r.Ok? && !core.JObj? ==> r.value == core
  {
    if core.JObj? then Ok(JObj(core.fields + d))
    else if d == map[] then Ok(core)
    else Err("TypeError")
  }

  /** save_core: load, assign the keys of d one by one, write, return the dict. */
  method SaveCore(f: JsonFile, d: Obj) returns (r: Result<Json>)
    modifies f
    ensures r == Saved(old(f.Loaded()), d)
    ensures r.Ok? ==> f.data == Some(r.value)
    ensures r.Err? ==> f.data == old(f.data)
  {
    var core := f.Loaded();
    if !core.JObj? {
      if d != map[] {
        return Err("TypeError");
      }
      f.data := Some(core);
      return Ok(core);
    }
    var m := core.fields;
    var todo := d.Keys;
    while todo != {}
      invariant todo <= d.Keys
      invariant m == core.fields + map k | k in d.Keys - todo :: d[k]
      decreases todo
    {
      var k :| k in todo;
      m := m[k := d[k]];
      todo := todo - {k};
    }
    assert d.Keys - todo == d.Keys;
    assert m == core.fields + d;
    f.data := Some(JObj(m));
    r := Ok(JObj(m));
  }

  /** Saving the same dict twice leaves what saving it once left. */
  lemma SaveTwice(core: Json, d: Obj)
    requires Saved(core, d).Ok?
    ensures Saved(Saved(core, d).value, d) == Saved(core, d)
  {
    if core.JObj? {
      var m := core.fields + d;
      assert m + d == m;
    }
  }

  /** Saving an empty dict changes nothing. */
  lemma SaveEmpty(core: Json)
    ensures Saved(core, map[]) == Ok(core)
  {
    if core.JObj? {
      assert core.fields + map[] == core.fields;
    }
  }
}
