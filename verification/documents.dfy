/** Firestore documents and JavaScript objects as field maps, and the two
    ways the client writes a document: `setDoc(ref, data)` replaces it and
    `setDoc(ref, data, { merge: true })` merges into it. Documents written by
    the client nest at most one level (`lastRead: { [uid]: date }`), so a
    field is either a leaf or a map of leaves. */
module Documents {
  import opened Wrappers

  /** A leaf value: `undefined`, `null`, a string, a number, a boolean, or a
      date (a timestamp in milliseconds, taken as an opaque input). */
  datatype Atom = Undefined | Null | Str(s: string) | Num(n: int) | Bool(b: bool) | Time(millis: int)

  datatype Field = Leaf(atom: Atom) | Nested(entries: map<string, Atom>)

  type Fields = map<string, Field>

  datatype WriteMode = Replace | Merge

  /** A pending `setDoc` call on `collection/id`. */
  datatype Write = Write(collection: string, id: string, data: Fields, mode: WriteMode)

  /** Property access on a JavaScript object: a missing key reads as `undefined`. */
  function Get(d: Fields, k: string): Field {
    if k in d then d[k] else Leaf(Undefined)
  }

  /** A merged field: a map written over a map is merged key by key, any
      other value overwrites what was there. */
  function MergeField(stored: Field, written: Field): Field {
    if stored.Nested? && written.Nested? then Nested(stored.entries + written.entries) else written
  }

  /** The stored document after `setDoc(ref, data, { merge: true })`. */
  function MergeInto(stored: Fields, data: Fields): (r: Fields)
    ensures r.Keys == stored.Keys + data.Keys
    ensures forall k :: k in stored && k !in data ==> r[k] == stored[k]
    ensures forall k :: k in data && data[k].Leaf? ==> r[k] == data[k]
    ensures forall k, e :: k in data && data[k].Nested? && e in data[k].entries ==>
      r[k].Nested? && e in r[k].entries && r[k].entries[e] == data[k].entries[e]
    ensures forall k, e ::
      (k in data && data[k].Nested? && k in stored && stored[k].Nested? &&
       e in stored[k].entries && e !in data[k].entries) ==>
      r[k].Nested? && e in r[k].entries && r[k].entries[e] == stored[k].entries[e]
    ensures forall k :: k in data && data[k].Nested? ==>
      && r[k].Nested?
      && r[k].entries.Keys == data[k].entries.Keys + (if k in stored && stored[k].Nested? then stored[k].entries.Keys else {})
  {
    map k | k in stored.Keys + data.Keys ::
      if k !in data then stored[k]
      else if k in stored then MergeField(stored[k], data[k])
      else data[k]
  }

  /** The stored document after a write, given the document stored before
      (`None` when there was none). */
  function Apply(existing: Option<Fields>, data: Fields, mode: WriteMode): (r: Fields)
    ensures r.Keys == data.Keys + (if mode == Merge && existing.Some? then existing.value.Keys else {})
    ensures forall k :: k in data && data[k].Leaf? ==> r[k] == data[k]
    ensures mode == Merge && existing.Some? ==>
      forall k :: k in existing.value && k !in data ==> r[k] == existing.value[k]
    ensures mode == Replace || existing.None? ==> r == data
  {
    match mode
    case Replace => data
    case Merge => MergeInto(existing.GetOr(map[]), data)
  }

  /** Two writes are compatible when every field path they both write
      receives the same value from each. */
  predicate Compatible(d1: Fields, d2: Fields) {
    forall k | k in d1 && k in d2 ::
      || (d1[k].Leaf? && d1[k] == d2[k])
      || (d1[k].Nested? && d2[k].Nested? && EntriesAgree(d1[k].entries, d2[k].entries))
  }

  predicate EntriesAgree(a: map<string, Atom>, b: map<string, Atom>) {
    forall e | e in a && e in b :: a[e] == b[e]
  }

  /** Writing the same merge twice stores what writing it once stores. */
  lemma MergeIdempotent(stored: Fields, data: Fields)
    ensures MergeInto(MergeInto(stored, data), data) == MergeInto(stored, data)
  {
    var once := MergeInto(stored, data);
    var twice := MergeInto(once, data);
    forall k | k in twice
      ensures twice[k] == once[k]
    {
      if k in data && data[k].Nested? {
        assert once[k].Nested?;
        assert once[k].entries + data[k].entries == once[k].entries;
      }
    }
  }

  /** Two compatible writes of one field commute. */
  lemma MergeFieldCommutes(w1: Field, w2: Field)
    requires (w1.Leaf? && w1 == w2) || (w1.Nested? && w2.Nested? && EntriesAgree(w1.entries, w2.entries))
    ensures MergeField(w1, w2) == MergeField(w2, w1)
    ensures forall f: Field :: MergeField(MergeField(f, w1), w2) == MergeField(MergeField(f, w2), w1)
  {
    if w1.Nested? {
      assert w1.entries + w2.entries == w2.entries + w1.entries;
      forall f: Field | f.Nested?
        ensures f.entries + w1.entries + w2.entries == f.entries + w2.entries + w1.entries
      {
      }
    }
  }

  /** Two compatible merges commute: neither clobbers what the other wrote,
      whichever lands first. */
  lemma MergeCommutes(stored: Fields, d1: Fields, d2: Fields)
    requires Compatible(d1, d2)
    ensures MergeInto(MergeInto(stored, d1), d2) == MergeInto(MergeInto(stored, d2), d1)
  {
    var m1 := MergeInto(stored, d1);
    var m2 := MergeInto(stored, d2);
    var a := MergeInto(m1, d2);
    var b := MergeInto(m2, d1);
    assert a.Keys == b.Keys;
    forall k | k in a
      ensures a[k] == b[k]
    {
      if k in d1 && k in d2 {
        MergeFieldCommutes(d1[k], d2[k]);
        if k in stored {
          assert a[k] == MergeField(MergeField(stored[k], d1[k]), d2[k]);
          assert b[k] == MergeField(MergeField(stored[k], d2[k]), d1[k]);
        } else {
          assert a[k] == MergeField(d1[k], d2[k]);
          assert b[k] == MergeField(d2[k], d1[k]);
        }
      }
    }
  }

  /** A later merge writes over every path of `d1` when it writes each of
      its fields with the same shape and, inside maps, each of its keys. */
  predicate Covers(d2: Fields, d1: Fields) {
    forall k | k in d1 ::
      k in d2 && (d1[k].Leaf? <==> d2[k].Leaf?) &&
      (d1[k].Nested? ==> d1[k].entries.Keys <= d2[k].entries.Keys)
  }

  /** A field written over with the same shape, and inside a map with at
      least the same keys, loses every trace of the earlier write. */
  lemma FieldOverwrites(f: Field, w1: Field, w2: Field)
    requires w1.Leaf? <==> w2.Leaf?
    requires w1.Nested? ==> w1.entries.Keys <= w2.entries.Keys
    ensures MergeField(MergeField(f, w1), w2) == MergeField(f, w2)
    ensures MergeField(w1, w2) == w2
  {
    if w1.Nested? {
      assert w1.entries + w2.entries == w2.entries;
      if f.Nested? {
        assert f.entries + w1.entries + w2.entries == f.entries + w2.entries;
      }
    }
  }

  /** A merge that covers an earlier one hides it completely. */
  lemma MergeOverwrites(stored: Fields, d1: Fields, d2: Fields)
    requires Covers(d2, d1)
    ensures MergeInto(MergeInto(stored, d1), d2) == MergeInto(stored, d2)
  {
    var m := MergeInto(stored, d1);
    var a := MergeInto(m, d2);
    var b := MergeInto(stored, d2);
    assert a.Keys == b.Keys;
    forall k | k in a
      ensures a[k] == b[k]
    {
      if k in d1 {
        FieldOverwrites(if k in stored then stored[k] else Leaf(Undefined), d1[k], d2[k]);
        if k in stored {
          assert m[k] == MergeField(stored[k], d1[k]);
          assert b[k] == MergeField(stored[k], d2[k]);
        } else {
          assert m[k] == d1[k];
        }
      }
    }
  }
}
