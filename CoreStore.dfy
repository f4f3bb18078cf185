/**
 * gateway/core_store.py: the recursive merge of a payload into one namespace
 * of a core file, and the third block grammar (CoreStore in CoreBlocks).
 */
module CoreStore {
  import opened Common
  import opened CoreBlocks

  /** The value deep_merge leaves under a key k of src. */
  function MergedAt(dst: Obj, src: Obj, k: string): Json
    requires k in src
    decreases JObj(src), 0
  {
    if src[k].JObj? && k in dst && dst[k].JObj? then JObj(DeepMerge(dst[k].fields, src[k].fields))
    else src[k]
  }

  /** deep_merge(dst, src) as a value: a key where both sides hold a dict is
      merged recursively, every other key of src overwrites dst, and keys only
      in dst are kept. */
  function DeepMerge(dst: Obj, src: Obj): (r: Obj)
    ensures r.Keys == dst.Keys + src.Keys
    ensures forall k :: k in dst && k !in src ==> r[k] == dst[k]
    ensures forall k :: k in src && !(src[k].JObj? && k in dst && dst[k].JObj?) ==> r[k] == src[k]
    decreases JObj(src), 1
  {
    map k | k in dst.Keys + src.Keys :: if k in src then MergedAt(dst, src, k) else dst[k]
  }

  /** deep_merge as it runs: the keys of src are visited one at a time and dst
      is updated in place, recursing into nested dicts. */
  method MergeIn(dst: Obj, src: Obj) returns (r: Obj)
    ensures r == DeepMerge(dst, src)
    decreases JObj(src)
  {
    r := dst;
    var todo := src.Keys;
    while todo != {}
      invariant todo <= src.Keys
      invariant r == Partial(dst, src, src.Keys - todo)
      decreases todo
    {
      var k :| k in todo;
      PartialStep(dst, src, src.Keys - todo, k);
      var v := src[k];
      var merged: Json;
      if v.JObj? && k in r && r[k].JObj? {
        var sub := MergeIn(r[k].fields, v.fields);
        merged := JObj(sub);
      } else {
        merged := v;
      }
      assert merged == MergedAt(dst, src, k);
      r := r[k := merged];
      assert src.Keys - (todo - {k}) == (src.Keys - todo) + {k};
      todo := todo - {k};
    }
    assert src.Keys - todo == src.Keys;
    PartialAll(dst, src);
  }

  /** dst after the keys in done have been merged. */
  function Partial(dst: Obj, src: Obj, done: set<string>): Obj
    requires done <= src.Keys
  {
    dst + map k | k in done :: MergedAt(dst, src, k)
  }

  lemma PartialStep(dst: Obj, src: Obj, done: set<string>, k: string)
    requires done <= src.Keys && k in src && k !in done
    ensures var p := Partial(dst, src, done);
      && (k in p <==> k in dst)
      && (k in dst ==> p[k] == dst[k])
      && p[k := MergedAt(dst, src, k)] == Partial(dst, src, done + {k})
  {
  }

  lemma PartialAll(dst: Obj, src: Obj)
    ensures Partial(dst, src, src.Keys) == DeepMerge(dst, src)
  {
  }

  /** Merging in an empty dict changes nothing. */
  lemma MergeEmpty(d: Obj)
    ensures DeepMerge(d, map[]) == d
  {
  }

  /** Merging a dict into itself changes nothing. */
  lemma {:induction false} MergeSelf(x: Obj)
    ensures DeepMerge(x, x) == x
    decreases JObj(x)
  {
    forall k | k in x ensures MergedAt(x, x, k) == x[k] {
      if x[k].JObj? {
        MergeSelf(x[k].fields);
      }
    }
  }

  /** Merging the same src a second time gives what merging it once gave. */
  lemma {:induction false} MergeIdempotent(d: Obj, s: Obj)
    ensures DeepMerge(DeepMerge(d, s), s) == DeepMerge(d, s)
    decreases JObj(s)
  {
    var once := DeepMerge(d, s);
    forall k | k in s ensures MergedAt(once, s, k) == once[k] {
      if s[k].JObj? {
        if k in d && d[k].JObj? {
          MergeIdempotent(d[k].fields, s[k].fields);
        } else {
          MergeSelf(s[k].fields);
        }
      }
    }
  }

  /** Whether `namespace not in data` is False for a core that is not an object:
      a list holding the namespace, or a string containing it. */
  predicate HoldsNamespace(data: Json, ns: string) {
    (data.JArr? && JStr(ns) in data.items) || (data.JStr? && Contains(data.s, ns))
  }

  /** What a core that is not an object raises.  When it holds the namespace,
      data.get raises AttributeError; otherwise the membership test (null, bool,
      number) or the item assignment (list, string) raises TypeError. */
  function NonObjectError(data: Json, ns: string): string {
    if HoldsNamespace(data, ns) then "AttributeError" else "TypeError"
  }

  /** The core after merge_into_core: the namespace entry, replaced by {} when it
      is missing or not a dict, deep-merged with the payload.  A file holding
      something other than an object raises NonObjectError. */
  function MergedCore(data: Json, payload: Obj, ns: string): (r: Result<Obj>)
    ensures r.Ok? <==> data.JObj?
    ensures r.Err? ==> (r.error == "AttributeError" <==> HoldsNamespace(data, ns))
    ensures r.Err? ==> (r.error == "TypeError" <==> !HoldsNamespace(data, ns))
    ensures r.Ok? ==> var base := if ns in data.fields && data.fields[ns].JObj? then data.fields[ns].fields else map[];
      && r.value.Keys == data.fields.Keys + {ns}
      && r.value[ns] == JObj(DeepMerge(base, payload))
      && (forall k :: k in data.fields && k != ns ==> r.value[k] == data.fields[k])
  {
    if !data.JObj? then Err(NonObjectError(data, ns))
    else
      var base := if ns in data.fields && data.fields[ns].JObj? then data.fields[ns].fields else map[];
      Ok(data.fields[ns := JObj(DeepMerge(base, payload))])
  }

  /** merge_into_core: load, merge under the namespace in place, write, return the data. */
  method MergeIntoCore(f: JsonFile, payload: Obj, ns: string) returns (r: Result<Obj>)
    modifies f
    ensures r == MergedCore(old(f.Loaded()), payload, ns)
    ensures r.Ok? ==> f.data == Some(JObj(r.value))
    ensures r.Err? ==> f.data == old(f.data)
  {
    var data := f.Loaded();
    if !data.JObj? {
      return Err(NonObjectError(data, ns));
    }
    var fields := data.fields;
    if ns !in fields || !fields[ns].JObj? {
      fields := fields[ns := JObj(map[])];
    }
    var merged := MergeIn(fields[ns].fields, payload);
    fields := fields[ns := JObj(merged)];
    assert fields == data.fields[ns := JObj(merged)];
    f.data := Some(JObj(fields));
    r := Ok(fields);
  }

  /** Merging the same payload twice leaves the core as merging it once. */
  lemma MergeIntoCoreTwice(data: Json, payload: Obj, ns: string)
    requires MergedCore(data, payload, ns).Ok?
    ensures MergedCore(JObj(MergedCore(data, payload, ns).value), payload, ns) == MergedCore(data, payload, ns)
  {
    var base := if ns in data.fields && data.fields[ns].JObj? then data.fields[ns].fields else map[];
    MergeIdempotent(base, payload);
    var once := MergedCore(data, payload, ns).value;
    var merged := DeepMerge(base, payload);
    assert once[ns] == JObj(merged);
    assert DeepMerge(merged, payload) == merged;
    assert MergedCore(JObj(once), payload, ns) == Ok(once[ns := JObj(merged)]);
    assert once[ns := JObj(merged)] == once;
  }

  /** A list holding the namespace, or a string containing it, passes the
      membership test and fails on data.get; other non-objects fail earlier. */
  lemma CoreErrors()
    ensures MergedCore(JArr([JStr("aurelia")]), map[], "aurelia") == Err("AttributeError")
    ensures MergedCore(JStr("my aurelia notes"), map[], "aurelia") == Err("AttributeError")
    ensures MergedCore(JArr([JStr("seedai")]), map[], "aurelia") == Err("TypeError")
    ensures MergedCore(JNull, map[], "aurelia") == Err("TypeError")
  {
    assert OccursAt("my aurelia notes", "aurelia", 3);
    assert JStr("aurelia") in [JStr("aurelia")];
    assert JStr("aurelia") !in [JStr("seedai")];
  }

  /** parse_core_block: the parsed body of the first block, None for no text, no
      block or a body that does not parse. */
  function ParseCoreBlock(text: Option<string>, parse: string -> Option<Json>): (r: Option<Json>)
    ensures text.None? ==> r.None?
    ensures text.Some? && Search(CoreStore, text.value, 0).None? ==> r.None?
    ensures text.Some? && Search(CoreStore, text.value, 0).Some? ==>
      r == parse(Body(text.value, Search(CoreStore, text.value, 0).value))
  {
    var t := if text.Some? then text.value else "";
    match Search(CoreStore, t, 0)
    case None => None
    case Some(m) => parse(Body(t, m))
  }

  /** The underscore spelling CORE_MEMORY_UPDATE is not this grammar's opener: a
      text in which every "core" is followed by '_' yields nothing. */
  lemma UnderscoreSpellingIgnored(text: string, parse: string -> Option<Json>)
    requires forall i :: CiAt(text, "core", i) ==> i + 4 < |text| && text[i + 4] == '_'
    ensures ParseCoreBlock(Some(text), parse).None?
  {
    UnderscoreFormNotMatched(text, 0);
    assert Search(CoreStore, text, 0).None?;
  }
}
