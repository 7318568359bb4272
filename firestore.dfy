/** The durable store the automation and the server share: Firestore
    documents addressed by (collection, id), read with `get()` and written with
    `set(fields)` (full write) or `set(fields, {merge: true})` (upsert). The
    transport and credentials are outside the model; a store that is not `up`
    makes every `get` and `set` throw. */
module Firestore {
  import opened Wrappers

  /** A Firestore field value. Floating-point numbers are kept as their
      literal text. */
  datatype Value =
    | Null
    | Str(s: string)
    | Bool(b: bool)
    | Int(i: int)
    | Number(text: string)
    | Obj(fields: map<string, Value>)

  type Record = map<string, Value>

  datatype DocPath = DocPath(collection: string, id: string)

  /** `db.collection("daily_logs").doc(date)`. */
  function DailyLogPath(date: string): DocPath { DocPath("daily_logs", date) }

  /** `db.collection("config").doc(id)`. */
  function ConfigPath(id: string): DocPath { DocPath("config", id) }

  /** What `doc.get()` yields: a missing document, its data, or a thrown error. */
  datatype ReadResult = Missing | Found(data: Record) | Unavailable

  /** JavaScript truthiness of a stored value (a zero number is written "0"). */
  predicate Truthy(v: Value) {
    match v
    case Null => false
    case Str(s) => s != ""
    case Bool(b) => b
    case Int(i) => i != 0
    case Number(t) => t != "0"
    case Obj(_) => true
  }

  /** `data.k || fallback`. */
  function FieldOr(r: Record, k: string, fallback: Value): (v: Value)
    ensures Truthy(fallback) ==> Truthy(v)
    ensures k in r && Truthy(r[k]) ==> v == r[k]
    ensures !(k in r && Truthy(r[k])) ==> v == fallback
  {
    if k in r && Truthy(r[k]) then r[k] else fallback
  }

  /** `data.k === s` for a string `s`. */
  predicate FieldIs(r: Record, k: string, s: string) {
    k in r && r[k] == Str(s)
  }

  /** The record a merge starts from: the stored one, or nothing. */
  function Existing(docs: map<DocPath, Record>, p: DocPath): Record {
    if p in docs then docs[p] else map[]
  }

  /** `set(fields, {merge: true})` on a document holding `base`: the fields
      written replace theirs, every other stored field stays. */
  function Merge(base: Record, fields: Record): (r: Record)
    ensures r.Keys == base.Keys + fields.Keys
    ensures forall k :: k in fields ==> r[k] == fields[k]
    ensures forall k :: k in base && k !in fields ==> r[k] == base[k]
  {
    base + fields
  }

  /** Two merge writes in a row act as one write of their union, the later
      write winning on shared fields; nothing written by the first and not by
      the second is lost. */
  lemma MergeTwice(base: Record, f1: Record, f2: Record)
    ensures Merge(Merge(base, f1), f2) == Merge(base, Merge(f1, f2))
    ensures forall k :: k in f1 && k !in f2 ==> Merge(Merge(base, f1), f2)[k] == f1[k]
  {
    var l, r := Merge(Merge(base, f1), f2), Merge(base, Merge(f1, f2));
    assert l.Keys == r.Keys;
    forall k | k in l ensures l[k] == r[k] {
      if k in f2 { } else if k in f1 { } else { }
    }
  }

  /** Writing the same fields again changes nothing. */
  lemma {:induction false} MergeIdempotent(base: Record, fields: Record)
    ensures Merge(Merge(base, fields), fields) == Merge(base, fields)
  {
    MergeTwice(base, fields, fields);
    assert Merge(fields, fields) == fields;
  }

  class Store {
    var docs: map<DocPath, Record>
    const up: bool

    constructor (initial: map<DocPath, Record>, reachable: bool)
      ensures docs == initial && up == reachable
    {
      docs := initial;
      up := reachable;
    }

    /** What `doc(p).get()` observes. */
    function Read(p: DocPath): (r: ReadResult)
      reads this
      ensures r.Unavailable? <==> !up
      ensures r.Found? <==> up && p in docs
      ensures r.Found? ==> r.data == docs[p]
    {
      if !up then Unavailable else if p in docs then Found(docs[p]) else Missing
    }

    /** `doc(p).set(fields, {merge: true})`; `ok` is false where it throws. */
    method SetMerge(p: DocPath, fields: Record) returns (ok: bool)
      modifies this
      ensures ok == up
      ensures docs == if up then old(docs)[p := Merge(Existing(old(docs), p), fields)] else old(docs)
    {
      ok := up;
      if up {
        docs := docs[p := Merge(Existing(docs, p), fields)];
      }
    }

    /** `doc(p).set(fields)`: replaces the whole document. */
    method Set(p: DocPath, fields: Record) returns (ok: bool)
      modifies this
      ensures ok == up
      ensures docs == if up then old(docs)[p := fields] else old(docs)
    {
      ok := up;
      if up {
        docs := docs[p := fields];
      }
    }
  }
}
