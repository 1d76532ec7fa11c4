/** Decoded JSON values. The key order of an object plays no part in any model here:
    cursors are written with sorted keys, and conditions have a single key. */
module JsonValues {

  datatype Json =
    | Null
    | Bool(truth: bool)
    | Number(value: real)
    | Text(text: string)
    | List(items: seq<Json>)
    | Object(fields: map<string, Json>)

  lemma SoleKeyIsUnique(fields: map<string, Json>, k: string, l: string)
    requires |fields| == 1 && k in fields && l in fields
    ensures k == l
  {
    var others := fields.Keys - {k};
    assert |others| == 0;
    assert l !in others;
  }

  /** The key of a one-entry object: Python's `next(iter(condition))`. */
  function SoleKey(fields: map<string, Json>): (key: string)
    requires |fields| == 1
    ensures key in fields
  {
    assert |fields.Keys| != 0;
    assert exists k :: k in fields.Keys;
    assert forall k, l | k in fields && l in fields :: k == l by {
      forall k, l | k in fields && l in fields ensures k == l {
        SoleKeyIsUnique(fields, k, l);
      }
    }
    var key :| key in fields;
    key
  }
}
