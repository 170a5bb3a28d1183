/** Lists filed under ids: what client and service have in common when they make
    a table of a list and refuse a list with an id twice. */
module Indexing {

  /** The ids are not empty, not yet known, and differ. */
  ghost predicate FitIds(ids: seq<string>, known: set<string>) {
    && (forall i :: 0 <= i < |ids| ==> ids[i] != "" && ids[i] !in known)
    && (forall i, j :: 0 <= i < j < |ids| ==> ids[i] != ids[j])
  }

  /** `after` is `before` with each value under its id. */
  ghost predicate FiledUnder<V>(ids: seq<string>, values: seq<V>, before: map<string, V>, after: map<string, V>)
    requires |ids| == |values|
  {
    && |after| == |before| + |ids|
    && (forall id :: id in before ==> id in after && after[id] == before[id])
    && (forall i :: 0 <= i < |ids| ==> ids[i] in after && after[ids[i]] == values[i])
    && (forall id :: id in after ==> id in before || id in ids)
  }

  lemma FitIdsFirst(ids: seq<string>, known: set<string>)
    requires ids != []
    ensures FitIds(ids, known) <==> ids[0] != "" && ids[0] !in known && FitIds(ids[1..], known + {ids[0]})
  {
    var rest := ids[1..];
    if ids[0] != "" && ids[0] !in known && FitIds(rest, known + {ids[0]}) {
      forall i | 0 < i < |ids| ensures ids[i] != "" && ids[i] !in known && ids[i] != ids[0] {
        assert rest[i - 1] == ids[i];
      }
      forall i, j | 0 < i < j < |ids| ensures ids[i] != ids[j] {
        assert rest[i - 1] == ids[i] && rest[j - 1] == ids[j];
      }
    }
  }

  lemma FiledFirst<V>(ids: seq<string>, values: seq<V>, before: map<string, V>, after: map<string, V>)
    requires |ids| == |values| && ids != [] && ids[0] !in before
    requires FiledUnder(ids[1..], values[1..], before[ids[0] := values[0]], after)
    ensures FiledUnder(ids, values, before, after)
  {
    var next := before[ids[0] := values[0]];
    assert next.Keys == before.Keys + {ids[0]} && |next.Keys| == |next| && |before.Keys| == |before|;
    assert ids[0] in next;
    forall i | 0 < i < |ids| ensures ids[i] in after && after[ids[i]] == values[i] {
      assert ids[1..][i - 1] == ids[i] && values[1..][i - 1] == values[i];
    }
  }

  lemma NothingFiled<V>(before: map<string, V>)
    ensures FitIds([], before.Keys) && FiledUnder([], [], before, before)
  {
  }
}
