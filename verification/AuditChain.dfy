/** The hash-chained audit log of safenestt/persistence/repositories.py (AuditEventRepository).

    The hash is a parameter of which only the output format is known: 64 lower-case
    hexadecimal digits. Such a function necessarily has collisions, so the theorems never say
    "a collision exists"; they compute two particular strings from the logs and say that
    either the claim holds or these two strings are different and hash alike. */
module AuditChain {
  import opened Basics

  datatype AuditEvent = AuditEvent(
    eventId: string, actorType: string, actorId: Option<string>, action: string, decision: string,
    riskLevel: string, detail: Option<string>)

  // Rows are listed in id order.
  datatype Row = Row(event: AuditEvent, chainHash: string)

  predicate Hex(c: char) {
    '0' <= c <= '9' || 'a' <= c <= 'f'
  }

  ghost predicate IsHash(hash: string -> string) {
    forall s :: |hash(s)| == 64 && forall i :: 0 <= i < 64 ==> Hex(hash(s)[i])
  }

  ghost predicate IsCollision(hash: string -> string, p: (string, string)) {
    p.0 != p.1 && hash(p.0) == hash(p.1)
  }

  function ActorText(actorId: Option<string>): string {
    if actorId.None? then "None" else actorId.value
  }

  function EventData(e: AuditEvent): string {
    e.eventId + ":" + (e.actorType + ":" + (ActorText(e.actorId) + ":" + (e.action + ":" + e.decision)))
  }

  // The string hashed for an event; an absent or empty previous hash starts a chain.
  function Preimage(previous: Option<string>, data: string): string {
    if previous.Some? && previous.value != "" then previous.value + ":" + data else "GENESIS:" + data
  }

  function Previous(rows: seq<Row>, i: nat): Option<string>
    requires i <= |rows|
  {
    if i == 0 then None else Some(rows[i - 1].chainHash)
  }

  function PreimageAt(rows: seq<Row>, i: nat): string
    requires i < |rows|
  {
    Preimage(Previous(rows, i), EventData(rows[i].event))
  }

  predicate Linked(hash: string -> string, rows: seq<Row>, i: nat)
    requires i < |rows|
  {
    rows[i].chainHash == hash(PreimageAt(rows, i))
  }

  ghost predicate Verified(hash: string -> string, rows: seq<Row>) {
    forall i :: 0 <= i < |rows| ==> Linked(hash, rows, i)
  }

  ghost predicate BrokenAt(hash: string -> string, rows: seq<Row>, i: nat) {
    i < |rows| && !Linked(hash, rows, i) && forall j :: 0 <= j < i ==> Linked(hash, rows, j)
  }

  function Prefix(s: string, n: nat): (r: string)
    ensures r <= s && (|s| >= n ==> |r| == n) && (|s| < n ==> r == s)
  {
    if |s| <= n then s else s[..n]
  }

  datatype Verdict =
    | NoEvents
    | Intact(count: nat)
    | Broken(index: nat, eventId: string, expected: string, got: string)

  class AuditEventRepository {
    const hash: string -> string
    var rows: seq<Row>

    constructor (hash: string -> string)
      ensures this.hash == hash && rows == []
    {
      this.hash := hash;
      rows := [];
    }

    // False when the event id is taken: the insert violates its unique constraint.
    method Record(e: AuditEvent) returns (recorded: bool)
      modifies this
      ensures recorded <==> forall r :: r in old(rows) ==> r.event.eventId != e.eventId
      ensures !recorded ==> rows == old(rows)
      ensures recorded ==>
        && |rows| == |old(rows)| + 1 && rows[..|old(rows)|] == old(rows)
        && rows[|old(rows)|].event == e && Linked(hash, rows, |old(rows)|)
      ensures rows == RecordedOne(hash, old(rows), e)
      ensures old(Verified(hash, rows)) ==> Verified(hash, rows)
    {
      var previousHash := if rows == [] then None else Some(rows[|rows| - 1].chainHash);
      var chainHash := hash(Preimage(previousHash, EventData(e)));
      if Verified(hash, rows) {
        AppendKeepsVerified(hash, rows, e);
      }
      var i := 0;
      while i < |rows|
        invariant 0 <= i <= |rows|
        invariant forall r :: r in rows[..i] ==> r.event.eventId != e.eventId
      {
        if rows[i].event.eventId == e.eventId {
          return false;
        }
        i := i + 1;
      }
      assert rows[..i] == rows;
      rows := rows + [Row(e, chainHash)];
      return true;
    }

    method ListAll(limit: nat) returns (r: seq<Row>)
      ensures r == if limit < |rows| then rows[..limit] else rows
    {
      return if limit < |rows| then rows[..limit] else rows;
    }

    static method VerifyChainIntegrity(hash: string -> string, events: seq<Row>) returns (v: Verdict)
      ensures v.NoEvents? <==> events == []
      ensures v.Intact? <==> events != [] && Verified(hash, events)
      ensures v.Intact? ==> v.count == |events|
      ensures v.Broken? <==> exists i :: BrokenAt(hash, events, i)
      ensures v.Broken? ==> BrokenAt(hash, events, v.index)
      ensures v.Broken? ==> v == Broken(v.index, events[v.index].event.eventId,
                                        Prefix(hash(PreimageAt(events, v.index)), 16),
                                        Prefix(events[v.index].chainHash, 16))
    {
      if events == [] {
        return NoEvents;
      }
      var previousHash: Option<string> := None;
      var i := 0;
      while i < |events|
        invariant 0 <= i <= |events|
        invariant previousHash == Previous(events, i)
        invariant forall j :: 0 <= j < i ==> Linked(hash, events, j)
      {
        var expectedHash := hash(Preimage(previousHash, EventData(events[i].event)));
        var storedHash := events[i].chainHash;
        if storedHash != expectedHash {
          assert BrokenAt(hash, events, i);
          return Broken(i, events[i].event.eventId, Prefix(expectedHash, 16), Prefix(storedHash, 16));
        }
        previousHash := Some(expectedHash);
        i := i + 1;
      }
      return Intact(|events|);
    }
  }

  // ---------------------------------------------------------------- recording

  function RecordedOne(hash: string -> string, rows: seq<Row>, e: AuditEvent): seq<Row> {
    if exists r :: r in rows && r.event.eventId == e.eventId then rows
    else rows + [Row(e, hash(Preimage(Previous(rows, |rows|), EventData(e))))]
  }

  function Recorded(hash: string -> string, rows: seq<Row>, events: seq<AuditEvent>): seq<Row>
    decreases |events|
  {
    if events == [] then rows else Recorded(hash, RecordedOne(hash, rows, events[0]), events[1..])
  }

  lemma AppendKeepsVerified(hash: string -> string, rows: seq<Row>, e: AuditEvent)
    requires Verified(hash, rows)
    ensures Verified(hash, RecordedOne(hash, rows, e))
  {
    var more := RecordedOne(hash, rows, e);
    forall i | 0 <= i < |more| ensures Linked(hash, more, i) {
      if i < |rows| {
        assert Linked(hash, rows, i);
        assert PreimageAt(more, i) == PreimageAt(rows, i);
      }
    }
  }

  lemma PrefixVerified(hash: string -> string, rows: seq<Row>, n: nat)
    requires Verified(hash, rows) && n <= |rows|
    ensures Verified(hash, rows[..n])
  {
    forall i | 0 <= i < n ensures Linked(hash, rows[..n], i) {
      assert Linked(hash, rows, i);
      assert PreimageAt(rows[..n], i) == PreimageAt(rows, i);
    }
  }

  /** However many events are recorded one after another on a sound log, every prefix of the
      result verifies, so verification passes at any `list_all` limit. */
  lemma {:induction false} RecordingVerifies(hash: string -> string, rows: seq<Row>, events: seq<AuditEvent>, n: nat)
    requires Verified(hash, rows) && n <= |Recorded(hash, rows, events)|
    ensures Verified(hash, Recorded(hash, rows, events)[..n])
    decreases |events|
  {
    if events == [] {
      PrefixVerified(hash, rows, n);
    } else {
      AppendKeepsVerified(hash, rows, events[0]);
      RecordingVerifies(hash, RecordedOne(hash, rows, events[0]), events[1..], n);
    }
  }

  // No row has the id of an event, and no two events share one.
  ghost predicate NewIds(rows: seq<Row>, events: seq<AuditEvent>) {
    && (forall i, j :: 0 <= i < |rows| && 0 <= j < |events| ==> rows[i].event.eventId != events[j].eventId)
    && forall i, j :: 0 <= i < j < |events| ==> events[i].eventId != events[j].eventId
  }

  lemma NewIdAppends(hash: string -> string, rows: seq<Row>, events: seq<AuditEvent>)
    requires events != [] && NewIds(rows, events)
    ensures var next := RecordedOne(hash, rows, events[0]);
      && |next| == |rows| + 1 && next[|rows|].event == events[0]
      && (forall i :: 0 <= i < |rows| ==> next[i] == rows[i])
      && NewIds(next, events[1..])
  {
    var next := RecordedOne(hash, rows, events[0]);
    forall r | r in rows ensures r.event.eventId != events[0].eventId {
      var i :| 0 <= i < |rows| && rows[i] == r;
    }
  }

  lemma {:induction false} RecordedAppends(hash: string -> string, rows: seq<Row>, events: seq<AuditEvent>)
    requires NewIds(rows, events)
    ensures var end := Recorded(hash, rows, events);
      && |end| == |rows| + |events|
      && (forall i :: 0 <= i < |rows| ==> end[i] == rows[i])
      && forall i :: 0 <= i < |events| ==> end[|rows| + i].event == events[i]
    decreases |events|
  {
    if events != [] {
      var next := RecordedOne(hash, rows, events[0]);
      NewIdAppends(hash, rows, events);
      RecordedAppends(hash, next, events[1..]);
      var end := Recorded(hash, next, events[1..]);
      forall i | 0 <= i < |events| ensures end[|rows| + i].event == events[i] {
        if i == 0 {
          assert end[|rows|] == next[|rows|];
        } else {
          assert end[|next| + (i - 1)].event == events[1..][i - 1] == events[i];
        }
      }
    }
  }

  /** Events with different ids, recorded one after another on an empty log, are the events of the
      log, in order, and the log verifies. */
  lemma LogHoldsWhatWasRecorded(hash: string -> string, events: seq<AuditEvent>)
    requires forall i, j :: 0 <= i < j < |events| ==> events[i].eventId != events[j].eventId
    ensures var log := Recorded(hash, [], events);
      && |log| == |events| && Verified(hash, log)
      && forall i :: 0 <= i < |log| ==> log[i].event == events[i]
  {
    var none: seq<Row> := [];
    var log := Recorded(hash, none, events);
    RecordedAppends(hash, none, events);
    RecordingVerifies(hash, none, events, |log|);
    assert log[..|log|] == log;
    forall i | 0 <= i < |log| ensures log[i].event == events[i] {
      assert log[|none| + i].event == events[i];
    }
  }

  /** The text of an event is its five fields with colons between them, an absent actor written
      "None", and behind it the hash of the row before, or GENESIS for the first one. */
  lemma HashedText(rows: seq<Row>, i: nat)
    requires i < |rows| && (i > 0 ==> rows[i - 1].chainHash != "")
    ensures var e := rows[i].event;
      PreimageAt(rows, i) ==
        (if i == 0 then "GENESIS" else rows[i - 1].chainHash)
        + ":" + e.eventId + ":" + e.actorType + ":" + (if e.actorId.None? then "None" else e.actorId.value)
        + ":" + e.action + ":" + e.decision
  {
    var e, actor := rows[i].event, ActorText(rows[i].event.actorId);
    var head := if i == 0 then "GENESIS" else rows[i - 1].chainHash;
    Joined(e.action, e.decision, actor);
    var tail := actor + ":" + e.action + ":" + e.decision;
    assert EventData(e) == e.eventId + ":" + (e.actorType + ":" + tail);
    assert e.eventId + ":" + (e.actorType + ":" + tail)
        == e.eventId + ":" + e.actorType + ":" + actor + ":" + e.action + ":" + e.decision;
    assert "GENESIS:" == "GENESIS" + ":";
    assert PreimageAt(rows, i) == head + ":" + EventData(e);
  }

  lemma Joined(a: string, b: string, x: string)
    ensures x + ":" + (a + ":" + b) == x + ":" + a + ":" + b
  {
  }

  // ---------------------------------------------------------------- what a head hash pins down

  // Walk two logs back in step from their ends to the first place where the hashed strings differ.
  function Divergence(a: seq<Row>, b: seq<Row>): (string, string)
    requires a != [] && b != []
    decreases |a|
  {
    var pa, pb := PreimageAt(a, |a| - 1), PreimageAt(b, |b| - 1);
    if pa != pb || |a| == 1 || |b| == 1 then (pa, pb) else Divergence(a[..|a| - 1], b[..|b| - 1])
  }

  ghost predicate SameData(a: seq<Row>, b: seq<Row>) {
    |a| == |b| && forall i :: 0 <= i < |a| ==> EventData(a[i].event) == EventData(b[i].event)
  }

  ghost predicate IsDigest(p: Option<string>) {
    p.Some? ==> |p.value| == 64 && Hex(p.value[0])
  }

  lemma PreviousIsDigest(hash: string -> string, rows: seq<Row>, i: nat)
    requires IsHash(hash) && Verified(hash, rows) && i <= |rows|
    ensures IsDigest(Previous(rows, i))
  {
    if i > 0 {
      assert Linked(hash, rows, i - 1);
      assert Hex(hash(PreimageAt(rows, i - 1))[0]);
    }
  }

  // A hashed string determines the previous hash and the data, given 64-digit hashes.
  lemma PreimageInjective(p: Option<string>, q: Option<string>, x: string, y: string)
    requires IsDigest(p) && IsDigest(q) && Preimage(p, x) == Preimage(q, y)
    ensures p == q && x == y
  {
    var u, v := Preimage(p, x), Preimage(q, y);
    assert u[0] == if p.Some? then p.value[0] else 'G';
    assert v[0] == if q.Some? then q.value[0] else 'G';
    if p.Some? {
      assert u[..64] == p.value && u[65..] == x;
      assert v[..64] == q.value && v[65..] == y;
    } else {
      assert u[8..] == x && v[8..] == y;
    }
  }

  /** Two verified logs that end in the same hash have the same length and event data, or
      their divergence is a hash collision. */
  lemma {:induction false} HeadPinsLog(hash: string -> string, a: seq<Row>, b: seq<Row>)
    requires IsHash(hash) && a != [] && b != []
    requires Verified(hash, a) && Verified(hash, b)
    requires a[|a| - 1].chainHash == b[|b| - 1].chainHash
    ensures SameData(a, b) || IsCollision(hash, Divergence(a, b))
    decreases |a|
  {
    var m, n := |a| - 1, |b| - 1;
    assert Linked(hash, a, m) && Linked(hash, b, n);
    if PreimageAt(a, m) == PreimageAt(b, n) {
      PreviousIsDigest(hash, a, m);
      PreviousIsDigest(hash, b, n);
      PreimageInjective(Previous(a, m), Previous(b, n), EventData(a[m].event), EventData(b[n].event));
      if m > 0 {
        PrefixVerified(hash, a, m);
        PrefixVerified(hash, b, n);
        HeadPinsLog(hash, a[..m], b[..n]);
        SameDataExtends(a, b);
      }
    }
  }

  lemma SameDataExtends(a: seq<Row>, b: seq<Row>)
    requires a != [] && b != [] && EventData(a[|a| - 1].event) == EventData(b[|b| - 1].event)
    ensures SameData(a[..|a| - 1], b[..|b| - 1]) ==> SameData(a, b)
  {
    var m, n := |a| - 1, |b| - 1;
    if SameData(a[..m], b[..n]) {
      forall i | 0 <= i < |a| ensures EventData(a[i].event) == EventData(b[i].event) {
        if i < m {
          assert a[..m][i] == a[i] && b[..n][i] == b[i];
        }
      }
    }
  }

  /** Two rows of a verified log never share a hash, or the two logs that end in them collide. */
  lemma HashesDistinct(hash: string -> string, rows: seq<Row>, i: nat, j: nat)
    requires IsHash(hash) && Verified(hash, rows) && i < j < |rows|
    ensures rows[i].chainHash != rows[j].chainHash || IsCollision(hash, Divergence(rows[..i + 1], rows[..j + 1]))
  {
    PrefixVerified(hash, rows, i + 1);
    PrefixVerified(hash, rows, j + 1);
    if rows[i].chainHash == rows[j].chainHash {
      HeadPinsLog(hash, rows[..i + 1], rows[..j + 1]);
    }
  }

  // ---------------------------------------------------------------- tampering

  /** Rewriting an event is undetected exactly when its hashed text still hashes alike: the
      other columns are not protected, and a changed text needs a collision. Otherwise
      verification fails at that very row. */
  lemma RewriteDetected(hash: string -> string, rows: seq<Row>, i: nat, e: AuditEvent)
    requires Verified(hash, rows) && i < |rows|
    ensures var forged := rows[i := rows[i].(event := e)];
      var texts := (PreimageAt(rows, i), PreimageAt(forged, i));
      && (texts.0 == texts.1 <==> EventData(e) == EventData(rows[i].event))
      && if texts.0 == texts.1 || IsCollision(hash, texts) then Verified(hash, forged) else BrokenAt(hash, forged, i)
  {
    var forged := rows[i := rows[i].(event := e)];
    assert Linked(hash, rows, i);
    var head := if i == 0 || rows[i - 1].chainHash == "" then "GENESIS:" else rows[i - 1].chainHash + ":";
    assert PreimageAt(rows, i) == head + EventData(rows[i].event) && PreimageAt(forged, i) == head + EventData(e);
    assert PreimageAt(rows, i)[|head|..] == EventData(rows[i].event) && PreimageAt(forged, i)[|head|..] == EventData(e);
    forall j | 0 <= j < |rows| && j != i ensures Linked(hash, forged, j) {
      assert Linked(hash, rows, j);
      assert PreimageAt(forged, j) == PreimageAt(rows, j);
    }
  }

  // The strings at stake when row j is moved up to directly follow row i - 1.
  function MoveStrings(rows: seq<Row>, i: nat, j: nat): (string, string)
    requires i < j < |rows|
  {
    var moved := Preimage(Previous(rows, i), EventData(rows[j].event));
    if moved != PreimageAt(rows, j) || i == 0 then (moved, PreimageAt(rows, j))
    else Divergence(rows[..i], rows[..j])
  }

  // Two logs that share their first i rows.
  lemma SharedRows(rows: seq<Row>, forged: seq<Row>, i: nat, k: nat)
    requires i <= |rows| && i <= |forged| && forged[..i] == rows[..i]
    ensures k < i ==> forged[k] == rows[k] && PreimageAt(forged, k) == PreimageAt(rows, k)
    ensures k <= i ==> Previous(forged, k) == Previous(rows, k)
  {
    if k <= i {
      assert k < i ==> forged[k] == forged[..i][k] == rows[..i][k];
      assert k > 0 ==> forged[k - 1] == forged[..i][k - 1] == rows[..i][k - 1];
    }
  }

  lemma SharedLinked(hash: string -> string, rows: seq<Row>, forged: seq<Row>, i: nat)
    requires Verified(hash, rows) && i <= |rows| && i <= |forged| && forged[..i] == rows[..i]
    ensures forall k :: 0 <= k < i ==> Linked(hash, forged, k)
  {
    forall k | 0 <= k < i ensures Linked(hash, forged, k) {
      SharedRows(rows, forged, i, k);
      assert Linked(hash, rows, k);
    }
  }

  // A row that would still fit after row i - 1 shows a collision.
  lemma MovedRowCollides(hash: string -> string, rows: seq<Row>, i: nat, j: nat)
    requires IsHash(hash) && Verified(hash, rows) && i < j < |rows|
    requires hash(Preimage(Previous(rows, i), EventData(rows[j].event))) == rows[j].chainHash
    ensures IsCollision(hash, MoveStrings(rows, i, j))
  {
    assert Linked(hash, rows, j);
    if Preimage(Previous(rows, i), EventData(rows[j].event)) == PreimageAt(rows, j) {
      PreviousIsDigest(hash, rows, i);
      PreviousIsDigest(hash, rows, j);
      PreimageInjective(Previous(rows, i), Previous(rows, j), EventData(rows[j].event), EventData(rows[j].event));
      assert i > 0 && rows[i - 1].chainHash == rows[j - 1].chainHash;
      HashesDistinct(hash, rows, i - 1, j - 1);
    }
  }

  // A log that agrees with a verified one up to i and then continues with a later row.
  lemma EarlyRowDetected(hash: string -> string, rows: seq<Row>, forged: seq<Row>, i: nat, j: nat)
    requires IsHash(hash) && Verified(hash, rows) && i < j < |rows|
    requires i < |forged| && forged[..i] == rows[..i] && forged[i] == rows[j]
    ensures BrokenAt(hash, forged, i) || IsCollision(hash, MoveStrings(rows, i, j))
  {
    SharedLinked(hash, rows, forged, i);
    if Linked(hash, forged, i) {
      SharedRows(rows, forged, i, i);
      MovedRowCollides(hash, rows, i, j);
    }
  }

  /** Deleting a row goes undetected exactly when it leaves its successor linked: always for the
      last row, otherwise only by a collision. If detected, verification fails exactly where the
      row was. */
  lemma DeletionDetected(hash: string -> string, rows: seq<Row>, i: nat)
    requires IsHash(hash) && Verified(hash, rows) && i < |rows|
    ensures var cut := rows[..i] + rows[i + 1..];
      && (Verified(hash, cut) || BrokenAt(hash, cut, i))
      && (i + 1 == |rows| ==> Verified(hash, cut))
      && (i + 1 < |rows| && Verified(hash, cut) ==> IsCollision(hash, MoveStrings(rows, i, i + 1)))
  {
    var cut := rows[..i] + rows[i + 1..];
    if i + 1 == |rows| {
      assert cut == rows[..i];
      PrefixVerified(hash, rows, i);
    } else {
      EarlyRowDetected(hash, rows, cut, i, i + 1);
      forall k | 0 <= k < |cut| && k != i ensures Linked(hash, cut, k) {
        var was := if k < i then k else k + 1;
        assert Linked(hash, rows, was) && cut[k] == rows[was];
        assert PreimageAt(cut, k) == PreimageAt(rows, was);
      }
    }
  }

  /** Exchanging two rows makes verification fail at the earlier of the two. */
  lemma SwapDetected(hash: string -> string, rows: seq<Row>, i: nat, j: nat)
    requires IsHash(hash) && Verified(hash, rows) && i < j < |rows|
    ensures BrokenAt(hash, rows[i := rows[j]][j := rows[i]], i) || IsCollision(hash, MoveStrings(rows, i, j))
  {
    EarlyRowDetected(hash, rows, rows[i := rows[j]][j := rows[i]], i, j);
  }

  // ---------------------------------------------------------------- what the hashed text pins down

  // The five hashed fields as text, in order.
  function Fields(e: AuditEvent): (fields: seq<string>)
    ensures |fields| == 5
  {
    [e.eventId, e.actorType, ActorText(e.actorId), e.action, e.decision]
  }

  predicate NoColons(e: AuditEvent) {
    forall i :: 0 <= i < 5 ==> ':' !in Fields(e)[i]
  }

  function Colons(s: string): nat {
    if s == "" then 0 else (if s[0] == ':' then 1 else 0) + Colons(s[1..])
  }

  lemma {:induction false} ColonsAdd(a: string, b: string)
    ensures Colons(a + b) == Colons(a) + Colons(b)
  {
    if a == "" {
      assert a + b == b;
    } else {
      ColonsAdd(a[1..], b);
      assert (a + b)[1..] == a[1..] + b;
    }
  }

  lemma {:induction false} ColonsCounted(s: string)
    ensures Colons(s) == 0 <==> ':' !in s
  {
    if s != "" {
      ColonsCounted(s[1..]);
      assert s == [s[0]] + s[1..];
    }
  }

  lemma ColonsJoined(a: string, b: string)
    ensures Colons(a + ":" + b) == Colons(a) + 1 + Colons(b)
  {
    ColonsAdd(a + ":", b);
    ColonsAdd(a, ":");
    assert Colons(":") == 1;
  }

  // A text without other colons than the four that join its fields comes from fields without any.
  lemma ColonsOfText(e: AuditEvent)
    ensures Colons(EventData(e)) >= 4
    ensures Colons(EventData(e)) == 4 <==> NoColons(e)
  {
    var fs := Fields(e);
    var e4 := fs[3] + ":" + fs[4];
    var e3 := fs[2] + ":" + e4;
    var e2 := fs[1] + ":" + e3;
    assert EventData(e) == fs[0] + ":" + e2;
    ColonsJoined(fs[0], e2);
    ColonsJoined(fs[1], e3);
    ColonsJoined(fs[2], e4);
    ColonsJoined(fs[3], fs[4]);
    ColonsCounted(fs[0]);
    ColonsCounted(fs[1]);
    ColonsCounted(fs[2]);
    ColonsCounted(fs[3]);
    ColonsCounted(fs[4]);
  }

  lemma {:induction false} SplitAtColon(a: string, x: string, b: string, y: string)
    requires ':' !in a && ':' !in b && a + ":" + x == b + ":" + y
    ensures a == b && x == y
    decreases |a|
  {
    var s, t := a + ":" + x, b + ":" + y;
    assert s[0] == if a == "" then ':' else a[0];
    assert t[0] == if b == "" then ':' else b[0];
    if a == "" {
      assert s[1..] == x && t[1..] == y;
    } else {
      assert s[1..] == a[1..] + ":" + x && t[1..] == b[1..] + ":" + y;
      SplitAtColon(a[1..], x, b[1..], y);
      assert a == [a[0]] + a[1..] && b == [b[0]] + b[1..];
    }
  }

  lemma SameTextSameFields(e: AuditEvent, f: AuditEvent)
    requires EventData(e) == EventData(f) && NoColons(e)
    ensures Fields(e) == Fields(f)
  {
    ColonsOfText(e);
    ColonsOfText(f);
    var es, fs := Fields(e), Fields(f);
    var e4, f4 := es[3] + ":" + es[4], fs[3] + ":" + fs[4];
    var e3, f3 := es[2] + ":" + e4, fs[2] + ":" + f4;
    SplitAtColon(es[0], es[1] + ":" + e3, fs[0], fs[1] + ":" + f3);
    SplitAtColon(es[1], e3, fs[1], f3);
    SplitAtColon(es[2], e4, fs[2], f4);
    SplitAtColon(es[3], es[4], fs[3], fs[4]);
  }

  lemma AtColon(s: string) returns (a: string, b: string)
    requires ':' in s
    ensures s == a + ":" + b
  {
    var i :| 0 <= i < |s| && s[i] == ':';
    a, b := s[..i], s[i + 1..];
  }

  lemma Regrouped(a: string, b: string, x: string, rest: string)
    ensures a + ":" + b + ":" + (x + ":" + rest) == a + ":" + (b + ":" + x + ":" + rest)
    ensures a + ":" + b + ":" + x == a + ":" + (b + ":" + x)
    ensures x + ":" + (a + ":" + b) == x + ":" + a + ":" + b
  {
  }

  // Text moved over a joint: past the next field's start, or for the last field back over the one before.
  lemma ColonMoves(e: AuditEvent) returns (f: AuditEvent)
    requires !NoColons(e)
    ensures EventData(f) == EventData(e) && Fields(f) != Fields(e)
  {
    var fs := Fields(e);
    var i :| 0 <= i < 5 && ':' in fs[i];
    var a, b := AtColon(fs[i]);
    var e4 := fs[3] + ":" + fs[4];
    var e3 := fs[2] + ":" + e4;
    if i == 0 {
      f := e.(eventId := a, actorType := b + ":" + fs[1]);
      Regrouped(a, b, fs[1], e3);
    } else if i == 1 {
      f := e.(actorType := a, actorId := Some(b + ":" + fs[2]));
      Regrouped(a, b, fs[2], e4);
    } else if i == 2 {
      f := e.(actorId := Some(a), action := b + ":" + fs[3]);
      Regrouped(a, b, fs[3], fs[4]);
    } else if i == 3 {
      f := e.(action := a, decision := b + ":" + fs[4]);
      Regrouped(a, b, fs[4], "");
    } else {
      f := e.(action := fs[3] + ":" + a, decision := b);
      Regrouped(a, b, fs[3], "");
    }
    assert |Fields(f)[i]| < |Fields(e)[i]|;
  }

  // The five hashed columns as they are stored: only the actor may be absent.
  function Columns(e: AuditEvent): (string, string, Option<string>, string, string) {
    (e.eventId, e.actorType, e.actorId, e.action, e.decision)
  }

  // An absent actor is hashed like the actor "None".
  predicate Unambiguous(e: AuditEvent) {
    NoColons(e) && ActorText(e.actorId) != "None"
  }

  // A different event with the same text: the other actor of the same text, or a colon moved.
  lemma TextReused(e: AuditEvent) returns (f: AuditEvent)
    requires !Unambiguous(e)
    ensures EventData(f) == EventData(e) && Columns(f) != Columns(e)
  {
    if NoColons(e) {
      f := e.(actorId := if e.actorId.None? then Some("None") else None);
    } else {
      f := ColonMoves(e);
    }
  }

  /** The hashed text pins all five columns of an event, whatever the other event contains,
      exactly when none of them contains a colon and its actor is neither absent nor "None". */
  lemma ColumnsPinnedExactlyWhen(e: AuditEvent)
    ensures Unambiguous(e) <==> forall f :: EventData(f) == EventData(e) ==> Columns(f) == Columns(e)
  {
    if Unambiguous(e) {
      forall f | EventData(f) == EventData(e) ensures Columns(f) == Columns(e) {
        SameTextSameFields(e, f);
        assert Fields(f)[0] == f.eventId && Fields(f)[1] == f.actorType && Fields(f)[2] == ActorText(f.actorId);
        assert Fields(f)[3] == f.action && Fields(f)[4] == f.decision;
      }
    } else {
      var f := TextReused(e);
    }
  }

  /** So every other logged event can be replaced by one with other columns, without a collision
      and without being noticed. */
  lemma AmbiguityUnnoticed(hash: string -> string, rows: seq<Row>, i: nat) returns (f: AuditEvent)
    requires Verified(hash, rows) && i < |rows| && !Unambiguous(rows[i].event)
    ensures Columns(f) != Columns(rows[i].event) && EventData(f) == EventData(rows[i].event)
    ensures Verified(hash, rows[i := rows[i].(event := f)])
  {
    f := TextReused(rows[i].event);
    RewriteDetected(hash, rows, i, f);
  }
}
