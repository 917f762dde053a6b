/**
 * The API's entities as the pages hold them: plain JavaScript objects whose
 * string-valued fields are read by key and combined with object spread.
 */
module Records {
  import opened Wrappers
  import Seqs

  /** A JSON object with string-valued fields, keyed by field name. */
  type Record = map<string, string>

  /** `obj[key]`: the field's value, or None when it is undefined. */
  function Lookup(r: Record, key: string): Option<string> {
    if key in r then Some(r[key]) else None
  }

  /** `obj[key] || fallback`: a missing or empty field gives the fallback. */
  function FieldOr(r: Record, key: string, fallback: string): (v: string)
    ensures key in r && r[key] != "" ==> v == r[key]
    ensures key !in r || r[key] == "" ==> v == fallback
  {
    if key in r && r[key] != "" then r[key] else fallback
  }

  /** `{ ...base, ...over }`: every key of either, the right-hand side winning. */
  function Merge(base: Record, over: Record): (r: Record)
    ensures r.Keys == base.Keys + over.Keys
    ensures forall k :: k in over ==> r[k] == over[k]
    ensures forall k :: k in base && k !in over ==> r[k] == base[k]
  {
    base + over
  }

  /** The `_id` field that the API gives every stored record. */
  function IdOf(r: Record): Option<string> {
    Lookup(r, "_id")
  }

  /**
   * `list.filter((x) => x._id !== id)`: drops every record carrying `id`
   * (with `===`, a missing id matches records that have none).
   */
  function RemoveById(list: seq<Record>, id: Option<string>): (r: seq<Record>)
    ensures forall x :: x in r <==> x in list && IdOf(x) != id
    ensures forall x :: multiset(r)[x] == if IdOf(x) != id then multiset(list)[x] else 0
  {
    Seqs.Filter(list, (x: Record) => IdOf(x) != id)
  }

  /** Deleting by id keeps the survivors in their original order. */
  lemma RemoveByIdKeepsOrder(list: seq<Record>, id: Option<string>)
    ensures Seqs.Subsequence(RemoveById(list, id), list)
  {
    Seqs.FilterIsSubsequence(list, (x: Record) => IdOf(x) != id);
  }

  /** Deleting an id that nothing carries leaves the list as it was. */
  lemma RemoveAbsentId(list: seq<Record>, id: Option<string>)
    requires forall i :: 0 <= i < |list| ==> IdOf(list[i]) != id
    ensures RemoveById(list, id) == list
  {
    Seqs.FilterAllPass(list, (x: Record) => IdOf(x) != id);
  }

  /** No two records of the list share an `_id`. */
  predicate UniqueIds(list: seq<Record>) {
    forall i, j :: 0 <= i < j < |list| ==> IdOf(list[i]) != IdOf(list[j])
  }

  /** With unique ids, deleting the id of row `i` removes that row and only that row. */
  lemma RemoveUniqueId(list: seq<Record>, i: nat)
    requires UniqueIds(list) && i < |list|
    ensures RemoveById(list, IdOf(list[i])) == Seqs.RemoveAt(list, i)
  {
    var id := IdOf(list[i]);
    var before, after := list[..i], list[i + 1..];
    assert list == before + [list[i]] + after;
    forall k | 0 <= k < |before| ensures IdOf(before[k]) != id {
      assert before[k] == list[k];
    }
    forall k | 0 <= k < |after| ensures IdOf(after[k]) != id {
      assert after[k] == list[i + 1 + k];
    }
    Seqs.FilterDropsOne(before, list[i], after, (x: Record) => IdOf(x) != id);
  }
}
