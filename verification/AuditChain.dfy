/**
 The hash-chained audit log of gateway/app/audit.py as a sequence of rows: what is hashed, what the
 verifier answers, and what an intact chain says about the rows. The hash is any function to 64 hex
 digits; where injectivity matters, a lemma names the finite set of texts on which it must not collide.
 */
module AuditChain {
  import opened Prelude
  import opened Json

  /** The fields a row's hash covers. `detail` is a JSON object. */
  datatype Covered = Covered(ts: string, actor: Option<string>, action: string, target: string, ip: string, detail: Value)

  datatype Row = Row(id: nat, covered: Covered, actorLabel: string, userAgent: string, prevHash: string, entryHash: string)

  type Hash = string -> string

  const HEX: string := "0123456789abcdef"

  ghost predicate HexHash(h: Hash) {
    forall s :: |h(s)| == 64 && forall i :: 0 <= i < 64 ==> h(s)[i] in HEX
  }

  ghost predicate Storable(c: Covered) {
    WellFormed(c.detail)
  }

  ghost predicate AllStorable(rows: seq<Row>) {
    forall i :: 0 <= i < |rows| ==> Storable(rows[i].covered)
  }

  function AsJson(c: Covered): Value {
    Object([
      Member("action", Text(c.action)),
      Member("actor", match c.actor case None => Null case Some(a) => Text(a)),
      Member("detail", c.detail),
      Member("ip", Text(c.ip)),
      Member("target", Text(c.target)),
      Member("ts", Text(c.ts))])
  }

  /** `_canonical`: the covered fields as compact JSON, keys in order. */
  function Canonical(c: Covered): string {
    Encode(AsJson(c))
  }

  /** What is hashed into a row that follows a row with hash `prev`. */
  function Input(prev: string, c: Covered): string {
    prev + Canonical(c)
  }

  lemma AsJsonWellFormed(c: Covered)
    requires Storable(c)
    ensures WellFormed(AsJson(c))
  {
  }

  lemma AsJsonInjective(c: Covered, d: Covered)
    requires AsJson(c) == AsJson(d)
    ensures c == d
  {
    var ms, ns := AsJson(c).members, AsJson(d).members;
    assert ms[0] == ns[0] && ms[1] == ns[1] && ms[2] == ns[2] && ms[3] == ns[3] && ms[4] == ns[4] && ms[5] == ns[5];
  }

  /** The value a JSON object has under a key. */
  function Field(v: Value, key: string): Option<Value> {
    if v.Object? then FieldAt(v.members, key) else None
  }

  function FieldAt(members: seq<Member>, key: string): Option<Value> {
    if members == [] then None else if members[0].key == key then Some(members[0].value) else FieldAt(members[1..], key)
  }

  function Keys(members: seq<Member>): seq<string> {
    if members == [] then [] else [members[0].key] + Keys(members[1..])
  }

  /** Every covered field under its name, the names in order, and no other. */
  ghost predicate ShowsCovered(v: Value, c: Covered) {
    && v.Object? && Keys(v.members) == ["action", "actor", "detail", "ip", "target", "ts"]
    && Field(v, "ts") == Some(Text(c.ts)) && Field(v, "action") == Some(Text(c.action))
    && Field(v, "actor") == Some(if c.actor.Some? then Text(c.actor.value) else Null)
    && Field(v, "target") == Some(Text(c.target)) && Field(v, "ip") == Some(Text(c.ip))
    && Field(v, "detail") == Some(c.detail)
  }

  lemma MembersShow(v: Value, c: Covered)
    requires v == AsJson(c)
    ensures ShowsCovered(v, c)
  {
    var ms := v.members;
    FieldFound(ms, "action", 0);
    FieldFound(ms, "actor", 1);
    FieldFound(ms, "detail", 2);
    FieldFound(ms, "ip", 3);
    FieldFound(ms, "target", 4);
    FieldFound(ms, "ts", 5);
    KeysAre(ms);
  }

  /** Whoever reads the canonical text as JSON finds there each covered field under its name, and nothing else. */
  lemma CanonicalReads(c: Covered)
    requires Storable(c)
    ensures Decode(Canonical(c)).Some? && ShowsCovered(Decode(Canonical(c)).value, c)
  {
    AsJsonWellFormed(c);
    DecodeEncode(AsJson(c));
    MembersShow(AsJson(c), c);
  }

  lemma {:induction false} FieldFound(members: seq<Member>, key: string, k: nat)
    requires k < |members| && members[k].key == key && forall i :: 0 <= i < k ==> members[i].key != key
    ensures FieldAt(members, key) == Some(members[k].value)
  {
    if k > 0 {
      FieldFound(members[1..], key, k - 1);
    }
  }

  lemma {:induction false} KeysAre(members: seq<Member>)
    ensures |Keys(members)| == |members| && forall i :: 0 <= i < |members| ==> Keys(members)[i] == members[i].key
  {
    if members != [] {
      KeysAre(members[1..]);
    }
  }

  /** The canonical text determines the covered fields. */
  lemma CanonicalInjective(c: Covered, d: Covered)
    requires Storable(c) && Storable(d) && Canonical(c) == Canonical(d)
    ensures c == d
  {
    AsJsonWellFormed(c);
    AsJsonWellFormed(d);
    EncodeInjective(AsJson(c), AsJson(d));
    AsJsonInjective(c, d);
  }

  /** A previous hash is absent or 64 hex digits. */
  ghost predicate HashText(p: string) {
    p == "" || (|p| == 64 && forall i :: 0 <= i < 64 ==> p[i] in HEX)
  }

  lemma CanonicalStarts(c: Covered)
    ensures Canonical(c) != "" && Canonical(c)[0] == '{'
  {
  }

  /** The hashed text splits in one way only: a previous hash never starts with the brace that JSON starts with. */
  lemma InputSplits(p: string, c: Covered, q: string, d: Covered)
    requires HashText(p) && HashText(q) && Storable(c) && Storable(d)
    requires Input(p, c) == Input(q, d)
    ensures p == q && c == d
  {
    CanonicalStarts(c);
    CanonicalStarts(d);
    assert p != "" ==> Input(p, c)[0] == p[0];
    assert q != "" ==> Input(q, d)[0] == q[0];
    assert p == "" ==> Input(p, c)[0] == '{';
    assert q == "" ==> Input(q, d)[0] == '{';
    Cancel(p, q, Canonical(c), Canonical(d));
    CanonicalInjective(c, d);
  }

  // ---- The verifier ----------------------------------------------------------------------------

  /** The hash the row at `i` has to continue from. */
  function Prev(rows: seq<Row>, i: nat): string
    requires i <= |rows|
  {
    if i == 0 then "" else rows[i - 1].entryHash
  }

  predicate Linked(h: Hash, rows: seq<Row>, i: nat)
    requires i < |rows|
  {
    rows[i].entryHash == h(Input(Prev(rows, i), rows[i].covered))
  }

  ghost predicate Chained(h: Hash, rows: seq<Row>) {
    forall i :: 0 <= i < |rows| ==> Linked(h, rows, i)
  }

  /** The first row from `i` on whose hash does not follow from its predecessor's and its own fields. */
  function FirstBroken(h: Hash, rows: seq<Row>, i: nat): Option<nat>
    requires i <= |rows|
    decreases |rows| - i
  {
    if i == |rows| then None
    else if !Linked(h, rows, i) then Some(i)
    else FirstBroken(h, rows, i + 1)
  }

  /** `verify_chain`: the id of the first broken row, if any. */
  function FirstBadId(h: Hash, rows: seq<Row>): Option<nat> {
    match FirstBroken(h, rows, 0)
    case None => None
    case Some(i) => if i < |rows| then Some(rows[i].id) else None
  }

  lemma {:induction false} FirstBrokenFinds(h: Hash, rows: seq<Row>, i: nat, k: nat)
    requires i <= k < |rows| && !Linked(h, rows, k)
    requires forall j :: i <= j < k ==> Linked(h, rows, j)
    ensures FirstBroken(h, rows, i) == Some(k)
    decreases k - i
  {
    if i < k {
      FirstBrokenFinds(h, rows, i + 1, k);
    }
  }

  lemma {:induction false} FirstBrokenNone(h: Hash, rows: seq<Row>, i: nat)
    requires i <= |rows|
    ensures FirstBroken(h, rows, i) == None <==> forall j :: i <= j < |rows| ==> Linked(h, rows, j)
    ensures FirstBroken(h, rows, i).Some? ==> FirstBroken(h, rows, i).value < |rows|
    decreases |rows| - i
  {
    if i < |rows| && Linked(h, rows, i) {
      FirstBrokenNone(h, rows, i + 1);
    }
  }

  /** The verifier accepts exactly the chained logs. */
  lemma VerifierAcceptsChained(h: Hash, rows: seq<Row>)
    ensures FirstBadId(h, rows) == None <==> Chained(h, rows)
  {
    FirstBrokenNone(h, rows, 0);
  }

  /** Otherwise it points at the first unlinked row. */
  lemma VerifierFindsFirst(h: Hash, rows: seq<Row>, k: nat)
    requires k < |rows| && !Linked(h, rows, k)
    requires forall j :: 0 <= j < k ==> Linked(h, rows, j)
    ensures FirstBadId(h, rows) == Some(rows[k].id)
  {
    FirstBrokenFinds(h, rows, 0, k);
  }

  // ---- Collisions --------------------------------------------------------------------------------

  ghost predicate NoCollision(h: Hash, texts: set<string>) {
    forall x, y :: x in texts && y in texts && h(x) == h(y) ==> x == y
  }

  /** Every text hashed into a log. */
  function Inputs(rows: seq<Row>): set<string> {
    set i | 0 <= i < |rows| :: Input(Prev(rows, i), rows[i].covered)
  }

  lemma PrevIsHashText(h: Hash, rows: seq<Row>, i: nat)
    requires HexHash(h) && Chained(h, rows) && i <= |rows|
    ensures HashText(Prev(rows, i))
    ensures Prev(rows, i) == "" <==> i == 0
  {
    if i > 0 {
      assert Linked(h, rows, i - 1);
    }
  }

  lemma InputsHas(rows: seq<Row>, i: nat)
    requires i < |rows|
    ensures Input(Prev(rows, i), rows[i].covered) in Inputs(rows)
  {
  }

  /** An intact log whose hashed texts, all among `texts`, do not collide. */
  ghost predicate Intact(h: Hash, rows: seq<Row>, texts: set<string>) {
    && HexHash(h) && Chained(h, rows) && AllStorable(rows)
    && Inputs(rows) <= texts && NoCollision(h, texts)
  }

  /** Equal hashes of two rows, in the same or different intact logs, mean equal predecessors and equal fields. */
  lemma SameHashSameRow(h: Hash, a: seq<Row>, i: nat, b: seq<Row>, j: nat, texts: set<string>)
    requires Intact(h, a, texts) && Intact(h, b, texts)
    requires i < |a| && j < |b| && a[i].entryHash == b[j].entryHash
    ensures Prev(a, i) == Prev(b, j) && a[i].covered == b[j].covered
  {
    InputsHas(a, i);
    InputsHas(b, j);
    assert Linked(h, a, i) && Linked(h, b, j);
    PrevIsHashText(h, a, i);
    PrevIsHashText(h, b, j);
    InputSplits(Prev(a, i), a[i].covered, Prev(b, j), b[j].covered);
  }

  /** The covered fields of the first `i` rows. */
  function Past(rows: seq<Row>, i: nat): (r: seq<Covered>)
    requires i <= |rows|
    ensures |r| == i && forall k :: 0 <= k < i ==> r[k] == rows[k].covered
  {
    seq(i, k requires 0 <= k < i => rows[k].covered)
  }

  lemma PastGrows(rows: seq<Row>, i: nat)
    requires 0 < i <= |rows|
    ensures Past(rows, i) == Past(rows, i - 1) + [rows[i - 1].covered]
  {
  }

  /** In both logs a hash names its row, and only the first row continues from no hash. */
  ghost predicate HashesName(a: seq<Row>, b: seq<Row>) {
    && (forall i, j :: 0 <= i < |a| && 0 <= j < |b| && a[i].entryHash == b[j].entryHash ==>
          Prev(a, i) == Prev(b, j) && a[i].covered == b[j].covered)
    && (forall i :: 0 <= i < |a| ==> a[i].entryHash != "")
    && (forall j :: 0 <= j < |b| ==> b[j].entryHash != "")
  }

  lemma IntactHashesName(h: Hash, a: seq<Row>, b: seq<Row>, texts: set<string>)
    requires Intact(h, a, texts) && Intact(h, b, texts)
    ensures HashesName(a, b)
  {
    forall i, j | 0 <= i < |a| && 0 <= j < |b| && a[i].entryHash == b[j].entryHash
      ensures Prev(a, i) == Prev(b, j) && a[i].covered == b[j].covered
    {
      SameHashSameRow(h, a, i, b, j, texts);
    }
    forall i | 0 <= i < |a| ensures a[i].entryHash != "" {
      PrevIsHashText(h, a, i + 1);
    }
    forall j | 0 <= j < |b| ensures b[j].entryHash != "" {
      PrevIsHashText(h, b, j + 1);
    }
  }

  /** Two positions that continue from the same hash have the same past. */
  lemma {:induction false} SamePrevSamePast(a: seq<Row>, i: nat, b: seq<Row>, j: nat)
    requires HashesName(a, b)
    requires i <= |a| && j <= |b| && Prev(a, i) == Prev(b, j)
    ensures i == j && Past(a, i) == Past(b, j)
  {
    if i > 0 && j > 0 {
      assert a[i - 1].entryHash == b[j - 1].entryHash;
      SamePrevSamePast(a, i - 1, b, j - 1);
      PastGrows(a, i);
      PastGrows(b, j);
    }
  }

  /**
   The tail hash fixes the log: two logs that verify and end in the same entry hash have the same length
   and the same covered fields in the same order.
   */
  lemma TailHashFixesLog(h: Hash, a: seq<Row>, b: seq<Row>)
    requires HexHash(h) && AllStorable(a) && AllStorable(b)
    requires FirstBadId(h, a) == None && FirstBadId(h, b) == None
    requires a != [] && b != [] && a[|a| - 1].entryHash == b[|b| - 1].entryHash
    requires NoCollision(h, Inputs(a) + Inputs(b))
    ensures |a| == |b| && Past(a, |a|) == Past(b, |b|)
  {
    assert Chained(h, a) && Chained(h, b) by {
      VerifierAcceptsChained(h, a);
      VerifierAcceptsChained(h, b);
    }
    IntactHashesName(h, a, b, Inputs(a) + Inputs(b));
    SamePrevSamePast(a, |a|, b, |b|);
  }

  // ---- Where tampering shows -----------------------------------------------------------------------

  /** No two rows of an intact log have the same hash, and none has the empty one. */
  lemma HashesDistinct(h: Hash, rows: seq<Row>, i: nat, j: nat)
    requires HexHash(h) && Chained(h, rows) && AllStorable(rows) && NoCollision(h, Inputs(rows))
    requires i <= |rows| && j <= |rows| && i != j
    ensures Prev(rows, i) != Prev(rows, j)
  {
    if Prev(rows, i) == Prev(rows, j) {
      IntactHashesName(h, rows, rows, Inputs(rows));
      SamePrevSamePast(rows, i, rows, j);
    }
  }

  lemma PrefixLinked(h: Hash, rows: seq<Row>, rows': seq<Row>, k: nat)
    requires Chained(h, rows) && k <= |rows| && k <= |rows'|
    requires forall i :: 0 <= i < k ==> rows'[i] == rows[i]
    ensures forall i :: 0 <= i < k ==> Linked(h, rows', i)
  {
    forall i | 0 <= i < k ensures Linked(h, rows', i) {
      assert Linked(h, rows, i);
      assert Prev(rows, i) == Prev(rows', i);
    }
  }

  /** A row rewritten under its old hash no longer fits its predecessor. */
  lemma RewrittenRowUnlinked(h: Hash, rows: seq<Row>, k: nat, r: Row)
    requires HexHash(h) && Chained(h, rows) && AllStorable(rows) && Storable(r.covered)
    requires k < |rows| && r.covered != rows[k].covered && r.entryHash == rows[k].entryHash
    requires NoCollision(h, {Input(Prev(rows, k), rows[k].covered), Input(Prev(rows, k), r.covered)})
    ensures !Linked(h, rows[k := r], k)
  {
    assert Linked(h, rows, k);
    assert Prev(rows[k := r], k) == Prev(rows, k);
    PrevIsHashText(h, rows, k);
    if Input(Prev(rows, k), rows[k].covered) == Input(Prev(rows, k), r.covered) {
      InputSplits(Prev(rows, k), rows[k].covered, Prev(rows, k), r.covered);
    }
  }

  /** A row whose hash was recomputed no longer fits its successor. */
  lemma RehashedRowBreaksNext(h: Hash, rows: seq<Row>, k: nat, r: Row)
    requires HexHash(h) && Chained(h, rows) && AllStorable(rows) && Storable(r.covered)
    requires k + 1 < |rows| && r.entryHash != rows[k].entryHash && Linked(h, rows[k := r], k)
    requires NoCollision(h, {Input(rows[k].entryHash, rows[k + 1].covered), Input(r.entryHash, rows[k + 1].covered)})
    ensures !Linked(h, rows[k := r], k + 1)
  {
    assert Linked(h, rows, k) && Linked(h, rows, k + 1);
    var next := rows[k + 1].covered;
    if Input(rows[k].entryHash, next) == Input(r.entryHash, next) {
      InputSplits(rows[k].entryHash, next, r.entryHash, next);
    }
  }

  /** The verifier's answer when the rows before `k` fit and something may be wrong at `k` or right after it. */
  lemma VerdictNear(h: Hash, rows: seq<Row>, k: nat)
    requires k < |rows| && forall j :: 0 <= j < k ==> Linked(h, rows, j)
    requires Linked(h, rows, k) && k + 1 < |rows| ==> !Linked(h, rows, k + 1)
    ensures FirstBadId(h, rows) ==
              if !Linked(h, rows, k) then Some(rows[k].id)
              else if k + 1 < |rows| then Some(rows[k + 1].id)
              else None
  {
    if !Linked(h, rows, k) {
      VerifierFindsFirst(h, rows, k);
    } else if k + 1 < |rows| {
      VerifierFindsFirst(h, rows, k + 1);
    } else {
      VerifierAcceptsChained(h, rows);
    }
  }

  /**
   Rewriting row `k` in any covered field or in its hash. The verifier answers exactly: the row itself,
   unless its hash was recomputed; then the row after it, unless there is none.
   */
  lemma RewriteIsLocated(h: Hash, rows: seq<Row>, k: nat, r: Row)
    requires HexHash(h) && Chained(h, rows) && AllStorable(rows) && Storable(r.covered)
    requires k < |rows| && r.id == rows[k].id
    requires r.covered != rows[k].covered || r.entryHash != rows[k].entryHash
    requires var old_, new_ := Input(Prev(rows, k), rows[k].covered), Input(Prev(rows, k), r.covered);
             NoCollision(h, {old_, new_})
    requires k + 1 < |rows| ==>
               NoCollision(h, {Input(rows[k].entryHash, rows[k + 1].covered), Input(r.entryHash, rows[k + 1].covered)})
    ensures var tampered := rows[k := r];
            FirstBadId(h, tampered) ==
              if !Linked(h, tampered, k) then Some(rows[k].id)
              else if k + 1 < |rows| then Some(rows[k + 1].id)
              else None
    ensures r.entryHash == rows[k].entryHash ==> FirstBadId(h, rows[k := r]) == Some(rows[k].id)
  {
    var tampered := rows[k := r];
    PrefixLinked(h, rows, tampered, k);
    assert r.entryHash == rows[k].entryHash ==> !Linked(h, tampered, k) by {
      if r.entryHash == rows[k].entryHash {
        RewrittenRowUnlinked(h, rows, k, r);
      }
    }
    assert Linked(h, tampered, k) && k + 1 < |rows| ==> !Linked(h, tampered, k + 1) by {
      if Linked(h, tampered, k) && k + 1 < |rows| {
        RehashedRowBreaksNext(h, rows, k, r);
      }
    }
    VerdictNear(h, tampered, k);
  }

  /** Deleting a row that is not the last makes the verifier point at the row after it. */
  lemma DeletionIsLocated(h: Hash, rows: seq<Row>, k: nat)
    requires HexHash(h) && Chained(h, rows) && AllStorable(rows)
    requires k + 1 < |rows|
    requires NoCollision(h, Inputs(rows) + {Input(Prev(rows, k), rows[k + 1].covered)})
    ensures FirstBadId(h, rows[..k] + rows[k + 1..]) == Some(rows[k + 1].id)
  {
    var cut := rows[..k] + rows[k + 1..];
    PrefixLinked(h, rows, cut, k);
    assert cut[k] == rows[k + 1] && Prev(cut, k) == Prev(rows, k);
    HashesDistinct(h, rows, k, k + 1);
    assert Linked(h, rows, k + 1);
    InputsHas(rows, k + 1);
    PrevIsHashText(h, rows, k);
    PrevIsHashText(h, rows, k + 1);
    if Input(Prev(rows, k), rows[k + 1].covered) == Input(Prev(rows, k + 1), rows[k + 1].covered) {
      InputSplits(Prev(rows, k), rows[k + 1].covered, Prev(rows, k + 1), rows[k + 1].covered);
    }
    assert !Linked(h, cut, k);
    VerifierFindsFirst(h, cut, k);
  }

  /** What the chain does not show: dropping any number of rows from the end leaves a log that verifies. */
  lemma TruncationVerifies(h: Hash, rows: seq<Row>, n: nat)
    requires n <= |rows| && FirstBadId(h, rows) == None
    ensures FirstBadId(h, rows[..n]) == None
  {
    VerifierAcceptsChained(h, rows);
    PrefixLinked(h, rows, rows[..n], n);
    VerifierAcceptsChained(h, rows[..n]);
  }

  /**
   Retention: dropping the oldest `k` rows. The verifier then answers the first row kept, because that row continues
   from a hash that is gone; only dropping nothing, or everything, goes unnoticed.
   */
  lemma PruningIsReported(h: Hash, rows: seq<Row>, k: nat)
    requires HexHash(h) && Chained(h, rows) && AllStorable(rows) && k <= |rows|
    requires 0 < k < |rows| ==> NoCollision(h, {Input("", rows[k].covered), Input(rows[k - 1].entryHash, rows[k].covered)})
    ensures FirstBadId(h, rows[k..]) == if 0 < k < |rows| then Some(rows[k].id) else None
  {
    var kept := rows[k..];
    if k == 0 {
      assert kept == rows;
      VerifierAcceptsChained(h, rows);
    } else if k < |rows| {
      FirstKeptUnlinked(h, rows, k);
      VerifierFindsFirst(h, kept, 0);
    }
  }

  lemma FirstKeptUnlinked(h: Hash, rows: seq<Row>, k: nat)
    requires HexHash(h) && Chained(h, rows) && AllStorable(rows) && 0 < k < |rows|
    requires NoCollision(h, {Input("", rows[k].covered), Input(rows[k - 1].entryHash, rows[k].covered)})
    ensures !Linked(h, rows[k..], 0)
  {
    assert Linked(h, rows, k) && Linked(h, rows, k - 1) && rows[k..][0] == rows[k];
    PrevIsHashText(h, rows, k);
    assert |Input("", rows[k].covered)| < |Input(rows[k - 1].entryHash, rows[k].covered)|;
  }
}
