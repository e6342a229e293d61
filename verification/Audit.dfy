/**
 The audit trail of gateway/app/audit.py as the table it is: `record` appends a row and then fills in its
 hash, `verify_chain` walks the table in id order.
 */
module Audit {
  import opened Prelude
  import opened AuditChain
  import Json

  datatype Role = Member | Admin | Owner

  /** The row `record` writes after a row with hash `prev`. */
  function NewRow(h: Hash, id: nat, prev: string, c: Covered, actorLabel: string, userAgent: string): Row {
    Row(id, c, actorLabel, if |userAgent| > 512 then userAgent[..512] else userAgent, prev, h(Input(prev, c)))
  }

  /** The owner's actions are never recorded. */
  predicate Skipped(roles: map<string, Role>, actor: Option<string>) {
    actor.Some? && actor.value in roles && roles[actor.value] == Owner
  }

  lemma AppendKeepsChain(h: Hash, rows: seq<Row>, id: nat, c: Covered, actorLabel: string, userAgent: string)
    requires Chained(h, rows)
    ensures Chained(h, rows + [NewRow(h, id, Prev(rows, |rows|), c, actorLabel, userAgent)])
  {
    var all := rows + [NewRow(h, id, Prev(rows, |rows|), c, actorLabel, userAgent)];
    PrefixLinked(h, rows, all, |rows|);
    assert Prev(all, |rows|) == Prev(rows, |rows|);
  }

  /** An intact table: chained, storable, with increasing ids below the next one. */
  ghost predicate IntactTable(h: Hash, rows: seq<Row>, nextId: nat) {
    && Chained(h, rows) && AllStorable(rows)
    && (forall i, j :: 0 <= i < j < |rows| ==> rows[i].id < rows[j].id)
    && (forall i :: 0 <= i < |rows| ==> rows[i].id < nextId)
  }

  lemma AppendKeepsTable(h: Hash, rows: seq<Row>, nextId: nat, c: Covered, actorLabel: string, userAgent: string)
    requires IntactTable(h, rows, nextId) && Storable(c)
    ensures IntactTable(h, rows + [NewRow(h, nextId, Prev(rows, |rows|), c, actorLabel, userAgent)], nextId + 1)
  {
    AppendKeepsChain(h, rows, nextId, c, actorLabel, userAgent);
  }

  class AuditTrail {
    const h: Hash
    var rows: seq<Row>
    var nextId: nat

    ghost predicate Valid()
      reads this
    {
      IntactTable(h, rows, nextId)
    }

    constructor (h: Hash)
      ensures Valid() && rows == [] && this.h == h
    {
      this.h := h;
      rows, nextId := [], 1;
    }

    /** The insertion that `record` makes: take the last hash, number the row, then fill in its own hash. */
    method Append(c: Covered, actorLabel: string, userAgent: string) returns (row: Row)
      requires Valid() && Storable(c)
      modifies this
      ensures Valid()
      ensures row == NewRow(h, old(nextId), Prev(old(rows), |old(rows)|), c, actorLabel, userAgent)
      ensures rows == old(rows) + [row]
    {
      var prevHash := if |rows| > 0 then rows[|rows| - 1].entryHash else "";
      var agent := if |userAgent| > 512 then userAgent[..512] else userAgent;
      row := Row(nextId, c, actorLabel, agent, prevHash, "");
      row := row.(entryHash := h(prevHash + Canonical(c)));
      AppendKeepsTable(h, rows, nextId, c, actorLabel, userAgent);
      rows, nextId := rows + [row], nextId + 1;
    }

    /** `record` */
    method Record(roles: map<string, Role>, action: string, actor: Option<string>, actorLabel: string, target: string,
                  ip: string, userAgent: string, detail: Option<Json.Value>, timestamp: string)
      returns (entry: Option<Row>)
      requires Valid()
      requires detail.Some? ==> detail.value.Object? && Json.WellFormed(detail.value)
      modifies this
      ensures Valid()
      ensures Skipped(roles, actor) ==> entry == None && rows == old(rows) && nextId == old(nextId)
      ensures !Skipped(roles, actor) ==>
                var c := Covered(timestamp, actor, action, target, ip, detail.GetOr(Json.Object([])));
                entry == Some(NewRow(h, old(nextId), Prev(old(rows), |old(rows)|), c, actorLabel, userAgent))
                && rows == old(rows) + [entry.value]
      ensures entry == None <==> actor.Some? && actor.value in roles && roles[actor.value] == Owner
      ensures entry.Some? ==>
                var r := entry.value;
                && r.id == old(nextId) && r.actorLabel == actorLabel
                && r.userAgent <= userAgent && |r.userAgent| == (if |userAgent| <= 512 then |userAgent| else 512)
                && r.covered.ts == timestamp && r.covered.actor == actor && r.covered.action == action
                && r.covered.target == target && r.covered.ip == ip
                && r.covered.detail == (if detail.Some? then detail.value else Json.Object([]))
                && r.prevHash == (if old(rows) == [] then "" else old(rows[|rows| - 1]).entryHash)
                && r.entryHash == h(r.prevHash + Canonical(r.covered))
    {
      if actor.Some? && actor.value in roles {
        if roles[actor.value] == Owner {
          return None;
        }
      }
      var c := Covered(timestamp, actor, action, target, ip, if detail.Some? then detail.value else Json.Object([]));
      var row := Append(c, actorLabel, userAgent);
      return Some(row);
    }

    /** `verify_chain` */
    method VerifyChain() returns (ok: bool, firstBad: Option<nat>)
      ensures firstBad == FirstBadId(h, rows) && (ok <==> firstBad == None)
      ensures ok <==> Chained(h, rows)
    {
      var prevHash := "";
      VerifierAcceptsChained(h, rows);
      for i := 0 to |rows|
        invariant prevHash == Prev(rows, i)
        invariant forall j :: 0 <= j < i ==> Linked(h, rows, j)
      {
        var expected := h(prevHash + Canonical(rows[i].covered));
        if expected != rows[i].entryHash {
          VerifierFindsFirst(h, rows, i);
          return false, Some(rows[i].id);
        }
        prevHash := rows[i].entryHash;
      }
      return true, None;
    }
  }

  /** One call of `record`, as data. */
  datatype Entry = Entry(covered: Covered, actorLabel: string, userAgent: string)

  /** The table after a run of recorded calls. */
  function Log(h: Hash, calls: Trace<Entry>): (rows: seq<Row>) {
    match calls
    case Start => []
    case Then(before, e) =>
      var rows := Log(h, before);
      rows + [NewRow(h, |rows| + 1, Prev(rows, |rows|), e.covered, e.actorLabel, e.userAgent)]
  }

  /** Every log built by serialised `record` calls verifies. */
  lemma {:induction false} RecordedLogVerifies(h: Hash, calls: Trace<Entry>)
    ensures FirstBadId(h, Log(h, calls)) == None
  {
    match calls
    case Start =>
    case Then(before, e) =>
      RecordedLogVerifies(h, before);
      var rows := Log(h, before);
      VerifierAcceptsChained(h, rows);
      AppendKeepsChain(h, rows, |rows| + 1, e.covered, e.actorLabel, e.userAgent);
      VerifierAcceptsChained(h, Log(h, calls));
  }
}
