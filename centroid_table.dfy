/** The centroid table: the trainer's `color_patterns` dictionary, from class
    name to centroid descriptor. A Python dictionary keeps its keys in
    insertion order and the classifier's tie-break depends on that order, so
    the table is a sequence of entries, looked up by class name. */
module CentroidTable {
  import opened Wrappers
  import opened Hsv

  type Label = string

  datatype Entry = Entry(className: Label, pattern: Descriptor)

  type Table = seq<Entry>

  /** The keys of the table, in insertion order. */
  function Labels(t: Table): (ls: seq<Label>)
    ensures |ls| == |t|
    ensures forall k :: 0 <= k < |t| ==> ls[k] == t[k].className
  {
    if t == [] then [] else [t[0].className] + Labels(t[1..])
  }

  /** Class names are dictionary keys, hence distinct. */
  predicate Distinct(names: seq<Label>)
  {
    forall i, j :: 0 <= i < j < |names| ==> names[i] != names[j]
  }

  predicate DistinctLabels(t: Table)
  {
    Distinct(Labels(t))
  }

  /** `t[className]` in Python: the centroid stored under `className`, if any. */
  function Lookup(t: Table, className: Label): (r: Option<Descriptor>)
    ensures r.Some? <==> className in Labels(t)
    ensures r.Some? ==> Entry(className, r.value) in t
  {
    if t == [] then None
    else if t[0].className == className then Some(t[0].pattern)
    else Lookup(t[1..], className)
  }

  /** `t[className] = pattern` in Python. */
  function Put(t: Table, className: Label, pattern: Descriptor): Table
  {
    if t == [] then [Entry(className, pattern)]
    else if t[0].className == className then [Entry(className, pattern)] + t[1..]
    else [t[0]] + Put(t[1..], className, pattern)
  }

  /** An existing key keeps its place; a new key goes last. */
  lemma {:induction false} PutLabels(t: Table, className: Label, pattern: Descriptor)
    ensures Labels(Put(t, className, pattern)) ==
      if className in Labels(t) then Labels(t) else Labels(t) + [className]
  {
    if t != [] && t[0].className != className {
      PutLabels(t[1..], className, pattern);
      var r := Put(t, className, pattern);
      assert r[1..] == Put(t[1..], className, pattern);
    }
  }

  /** After the assignment the key holds the new value and every other key
      holds what it held before. */
  lemma {:induction false} PutLookup(t: Table, className: Label, pattern: Descriptor, key: Label)
    ensures Lookup(Put(t, className, pattern), key) ==
      if key == className then Some(pattern) else Lookup(t, key)
  {
    if t != [] && t[0].className != className {
      PutLookup(t[1..], className, pattern, key);
      var r := Put(t, className, pattern);
      assert r[1..] == Put(t[1..], className, pattern);
    }
  }

  /** Assigning to a key keeps the keys distinct. */
  lemma PutDistinct(t: Table, className: Label, pattern: Descriptor)
    requires DistinctLabels(t)
    ensures DistinctLabels(Put(t, className, pattern))
  {
    PutLabels(t, className, pattern);
    var ls := Labels(t);
    if className !in ls {
      var rs := ls + [className];
      forall i, j | 0 <= i < j < |rs|
        ensures rs[i] != rs[j]
      {
        if j == |ls| {
          assert rs[i] == ls[i];
        }
      }
    }
  }
}
