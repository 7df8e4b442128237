/** Tables whose rows are only ever inserted, under ids of their own. */
module Tables {
  import opened Basics

  ghost predicate Below<V>(table: map<nat, V>, bound: nat) {
    forall k :: k in table ==> k < bound
  }

  // Old rows stay as they were.
  ghost predicate Kept<V>(before: map<nat, V>, after: map<nat, V>) {
    forall k :: k in before ==> k in after && after[k] == before[k]
  }

  // Ids that can be inserted one after another: none is taken.
  ghost predicate Free<V>(ids: seq<nat>, table: map<nat, V>) {
    && (forall i :: 0 <= i < |ids| ==> ids[i] !in table)
    && forall i, j :: 0 <= i < j < |ids| ==> ids[i] != ids[j]
  }

  // These rows were inserted under these ids, and nothing else happened.
  ghost predicate Inserted<V>(before: map<nat, V>, after: map<nat, V>, ids: seq<nat>, rows: seq<V>) {
    && |ids| == |rows| && Free(ids, before) && Kept(before, after)
    && (forall i :: 0 <= i < |ids| ==> ids[i] in after && after[ids[i]] == rows[i])
    && forall k :: k in after && k !in before ==> k in ids
  }

  // The next row can be inserted exactly if the ids so far and its own are free.
  lemma InsertedNext<V>(before: map<nat, V>, now: map<nat, V>, ids: seq<nat>, rows: seq<V>, i: nat)
    requires i < |ids| == |rows| && Inserted(before, now, ids[..i], rows[..i])
    ensures ids[i] !in now <==> Free(ids[..i + 1], before)
    ensures ids[i] in now ==> !Free(ids, before)
    ensures ids[i] !in now ==> Inserted(before, now[ids[i] := rows[i]], ids[..i + 1], rows[..i + 1])
  {
    assert ids[..i + 1] == ids[..i] + [ids[i]] && rows[..i + 1] == rows[..i] + [rows[i]];
    if ids[i] in now {
      if ids[i] !in before {
        var j :| 0 <= j < i && ids[..i][j] == ids[i];
        assert ids[j] == ids[i] && ids[..i + 1][j] == ids[..i + 1][i];
      } else {
        assert ids[..i + 1][i] in before;
      }
    } else {
      forall j | 0 <= j < i ensures ids[j] != ids[i] {
        assert ids[..i][j] == ids[j];
      }
    }
  }

  lemma InsertedNone<V>(before: map<nat, V>, after: map<nat, V>)
    ensures Inserted(before, after, [], []) <==> after == before
  {
    if Inserted(before, after, [], []) {
      assert forall k :: k in after <==> k in before;
    }
  }

  lemma InsertedTwice<V>(
    a: map<nat, V>, b: map<nat, V>, c: map<nat, V>, ids: seq<nat>, rows: seq<V>, ids': seq<nat>, rows': seq<V>)
    requires Inserted(a, b, ids, rows) && Inserted(b, c, ids', rows')
    ensures Inserted(a, c, ids + ids', rows + rows')
  {
    forall i | 0 <= i < |ids + ids'|
      ensures (ids + ids')[i] !in a && (ids + ids')[i] in c && c[(ids + ids')[i]] == (rows + rows')[i]
    {
      if i < |ids| {
        assert ids[i] in b;
      } else {
        assert ids'[i - |ids|] !in b;
      }
    }
    forall i, j | 0 <= i < j < |ids + ids'| ensures (ids + ids')[i] != (ids + ids')[j] {
      if i < |ids| <= j {
        assert ids[i] in b && ids'[j - |ids|] !in b;
      }
    }
  }

  lemma InsertedSize<V>(before: map<nat, V>, after: map<nat, V>, ids: seq<nat>, rows: seq<V>)
    requires Inserted(before, after, ids, rows)
    ensures |after| == |before| + |ids|
  {
    DistinctSize(ids);
    forall k | k in ids ensures k !in before && k in after {
      var i :| 0 <= i < |ids| && ids[i] == k;
    }
    KeysJoined(before.Keys, after.Keys, Elements(ids));
  }

  lemma KeysJoined(a: set<nat>, b: set<nat>, more: set<nat>)
    requires a !! more && (forall k :: k in b <==> k in a || k in more)
    ensures |b| == |a| + |more|
  {
    assert b == a + more;
  }

  lemma SameElsewhere<V>(a: map<nat, V>, b: map<nat, V>, id: nat, k: nat)
    requires b - {id} == a - {id} && k != id
    ensures (k in b <==> k in a) && (k in a ==> b[k] == a[k])
  {
    assert k in b <==> k in b - {id};
    assert k in a <==> k in a - {id};
    assert k in a ==> b[k] == (b - {id})[k] == (a - {id})[k];
  }
}
