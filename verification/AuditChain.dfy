/** The hash-chained audit log: building rows, verifying a log, and serialised appends. */
module AuditChain {
  import opened Wrappers

  // A JSON value, as its canonical text.
  type Json = string

  datatype Entry = Entry(
    actorId: string, actionType: string, actionParams: Json, riskLevel: string, decision: string,
    outcome: string, policyVersion: int, appVersion: string, confirmationId: Option<string>,
    result: Option<string>, errorCode: Option<string>, providerId: Option<string>,
    capabilityDomain: Option<string>, credentialRef: Option<string>, meta: Json)

  /** Every hashed field of a row. */
  datatype Payload = Payload(number: int, createdAt: string, entry: Entry, prevHash: string)

  datatype Row = Row(payload: Payload, entryHash: string,
                     algorithm: Option<string>, keyId: Option<string>, signature: Option<string>)

  datatype Signer = Signer(algorithm: string, keyId: string,
                           sign: string -> string, verify: (string, string) -> bool) {
    // What it signs it also accepts, and a signature is never the empty string.
    ghost predicate Sound() {
      forall h :: verify(h, sign(h)) && sign(h) != ""
    }
  }

  /** The digest of a payload's canonical form, the head an empty log starts from, and the key. */
  datatype Scheme = Scheme(hash: Payload -> string, genesis: string, signer: Option<Signer>) {
    ghost predicate Sound() {
      signer.Some? ==> signer.value.Sound()
    }
  }

  datatype Fault =
    | BrokenLink | HashMismatch
    | KeyUnavailable | AlgorithmMismatch | KeyIdMismatch | SignatureMismatch

  datatype VerifyResult = VerifyResult(valid: bool, entryCount: nat, firstMismatchSeq: Option<int>, fault: Option<Fault>)

  // ---- one row ----

  function BuildRow(s: Scheme, entry: Entry, number: int, prevHash: string, createdAt: string): Row {
    var payload := Payload(number, createdAt, entry, prevHash);
    var h := s.hash(payload);
    match s.signer
    case None => Row(payload, h, None, None, None)
    case Some(k) => Row(payload, h, Some(k.algorithm), Some(k.keyId), Some(k.sign(h)))
  }

  predicate Given(text: Option<string>) {
    text.Some? && text.value != ""
  }

  function SignatureFault(row: Row, signer: Option<Signer>): Option<Fault> {
    match signer
    case None =>
      if Given(row.algorithm) || Given(row.keyId) || Given(row.signature) then Some(KeyUnavailable) else None
    case Some(k) =>
      if row.algorithm != Some(k.algorithm) then Some(AlgorithmMismatch)
      else if row.keyId != Some(k.keyId) then Some(KeyIdMismatch)
      else if !Given(row.signature) || !k.verify(row.entryHash, row.signature.value) then Some(SignatureMismatch)
      else None
  }

  // The first thing wrong with a row that should follow `prev`.
  function RowFault(s: Scheme, prev: string, row: Row): Option<Fault> {
    if row.payload.prevHash != prev then Some(BrokenLink)
    else if row.entryHash != s.hash(row.payload) then Some(HashMismatch)
    else SignatureFault(row, s.signer)
  }

  // ---- a log ----

  function Head(s: Scheme, rows: seq<Row>): string {
    if rows == [] then s.genesis else rows[|rows| - 1].entryHash
  }

  function FaultAt(s: Scheme, rows: seq<Row>, i: nat): Option<Fault>
    requires i < |rows|
  {
    RowFault(s, if i == 0 then s.genesis else rows[i - 1].entryHash, rows[i])
  }

  ghost predicate ValidLog(s: Scheme, rows: seq<Row>) {
    forall i :: 0 <= i < |rows| ==> FaultAt(s, rows, i).None?
  }

  /** Row `k` is the first that fails; `k == |rows|` when none does. */
  ghost predicate FirstFault(s: Scheme, rows: seq<Row>, k: nat) {
    && k <= |rows|
    && ValidLog(s, rows[..k])
    && (k < |rows| ==> FaultAt(s, rows, k).Some?)
  }

  lemma PrefixFaults(s: Scheme, rows: seq<Row>, n: nat, i: nat)
    requires i < n <= |rows|
    ensures FaultAt(s, rows[..n], i) == FaultAt(s, rows, i)
  {
  }

  /** With a key, every row of a valid log carries that key's name and a signature it accepts for
      the row's hash; without one, a log with a single signed row is not valid. */
  lemma ValidRowsAreSigned(s: Scheme, rows: seq<Row>, i: nat)
    requires ValidLog(s, rows) && i < |rows|
    ensures match s.signer
            case None => rows[i].algorithm in {None, Some("")} && rows[i].keyId in {None, Some("")}
                         && rows[i].signature in {None, Some("")}
            case Some(k) =>
              && rows[i].algorithm == Some(k.algorithm) && rows[i].keyId == Some(k.keyId)
              && rows[i].signature.Some? && rows[i].signature.value != ""
              && k.verify(s.hash(rows[i].payload), rows[i].signature.value)
  {
    assert FaultAt(s, rows, i).None?;
  }

  /** Every prefix of a valid log is valid: cutting rows off the end cannot be noticed. */
  lemma PrefixesAreValid(s: Scheme, rows: seq<Row>, n: nat)
    requires ValidLog(s, rows) && n <= |rows|
    ensures ValidLog(s, rows[..n])
  {
    forall i | 0 <= i < n ensures FaultAt(s, rows[..n], i).None? {
      PrefixFaults(s, rows, n, i);
    }
  }

  /** The rows before the first fault form the longest valid prefix. */
  lemma FirstFaultEndsLongestValidPrefix(s: Scheme, rows: seq<Row>, k: nat, n: nat)
    requires FirstFault(s, rows, k) && n <= |rows|
    ensures ValidLog(s, rows[..n]) <==> n <= k
  {
    if n <= k {
      assert rows[..n] == rows[..k][..n];
      PrefixesAreValid(s, rows[..k], n);
    } else {
      PrefixFaults(s, rows, n, k);
    }
  }

  lemma FirstFaultIsUnique(s: Scheme, rows: seq<Row>, j: nat, k: nat)
    requires FirstFault(s, rows, j) && FirstFault(s, rows, k)
    ensures j == k
  {
    FirstFaultEndsLongestValidPrefix(s, rows, j, k);
    FirstFaultEndsLongestValidPrefix(s, rows, k, j);
  }

  /** Check a log row by row; `k` is the row the report is about. */
  method VerifyRows(s: Scheme, rows: seq<Row>) returns (r: VerifyResult, ghost k: nat)
    ensures FirstFault(s, rows, k)
    ensures r.valid <==> ValidLog(s, rows)
    ensures r.entryCount == |rows|
    ensures r.valid ==> k == |rows| && r.firstMismatchSeq.None? && r.fault.None?
    ensures !r.valid ==> k < |rows| && r.firstMismatchSeq == Some(rows[k].payload.number) && r.fault == FaultAt(s, rows, k)
  {
    k := 0;
    if |rows| == 0 {
      return VerifyResult(true, 0, None, None), 0;
    }
    var prev := s.genesis;
    for i := 0 to |rows|
      invariant k == i && prev == Head(s, rows[..i])
      invariant forall j :: 0 <= j < i ==> FaultAt(s, rows, j).None?
    {
      var row := rows[i];
      var fault := None;
      if row.payload.prevHash != prev {
        fault := Some(BrokenLink);
      } else if row.entryHash != s.hash(row.payload) {
        fault := Some(HashMismatch);
      } else {
        fault := SignatureFault(row, s.signer);
      }
      assert fault == FaultAt(s, rows, i);
      if fault.Some? {
        forall j | 0 <= j < i ensures FaultAt(s, rows[..i], j).None? {
          PrefixFaults(s, rows, i, j);
        }
        return VerifyResult(false, |rows|, Some(row.payload.number), fault), i;
      }
      prev := row.entryHash;
      k := i + 1;
    }
    assert rows[..|rows|] == rows;
    r := VerifyResult(true, |rows|, None, None);
  }

  // ---- tampering shows ----

  // Two different payloads, one in each log, with one hash.
  ghost predicate Collision(s: Scheme, a: seq<Row>, b: seq<Row>) {
    exists i, j :: 0 <= i < |a| && 0 <= j < |b|
                   && a[i].payload != b[j].payload && s.hash(a[i].payload) == s.hash(b[j].payload)
  }

  // A row whose payload hashes to the value logs start from.
  ghost predicate HitsGenesis(s: Scheme, rows: seq<Row>) {
    exists i :: 0 <= i < |rows| && s.hash(rows[i].payload) == s.genesis
  }

  ghost predicate SameContent(a: seq<Row>, b: seq<Row>) {
    |a| == |b| && forall i :: 0 <= i < |a| ==> a[i].payload == b[i].payload && a[i].entryHash == b[i].entryHash
  }

  lemma CollisionOfPrefixes(s: Scheme, a: seq<Row>, b: seq<Row>, n: nat, m: nat)
    requires n <= |a| && m <= |b|
    ensures Collision(s, a[..n], b[..m]) ==> Collision(s, a, b)
    ensures HitsGenesis(s, a[..n]) ==> HitsGenesis(s, a)
  {
    if Collision(s, a[..n], b[..m]) {
      var i, j :| 0 <= i < n && 0 <= j < m
                  && a[..n][i].payload != b[..m][j].payload && s.hash(a[..n][i].payload) == s.hash(b[..m][j].payload);
      assert a[i].payload != b[j].payload;
    }
    if HitsGenesis(s, a[..n]) {
      var i :| 0 <= i < n && s.hash(a[..n][i].payload) == s.genesis;
      assert s.hash(a[i].payload) == s.genesis;
    }
  }

  // What the validity of its last row says about a log.
  lemma LastRow(s: Scheme, rows: seq<Row>)
    requires ValidLog(s, rows) && rows != []
    ensures var last := rows[|rows| - 1];
            && last.payload.prevHash == Head(s, rows[..|rows| - 1])
            && last.entryHash == s.hash(last.payload)
            && ValidLog(s, rows[..|rows| - 1])
  {
    assert FaultAt(s, rows, |rows| - 1).None?;
    PrefixesAreValid(s, rows, |rows| - 1);
  }

  /** Two valid logs with one head are equal in every hashed field of every row, or they exhibit
      two payloads with one hash, or a row that hashes to the genesis value. */
  lemma {:induction false} EqualHeadsMeanEqualLogs(s: Scheme, a: seq<Row>, b: seq<Row>)
    requires ValidLog(s, a) && ValidLog(s, b) && Head(s, a) == Head(s, b)
    ensures SameContent(a, b) || Collision(s, a, b) || HitsGenesis(s, a) || HitsGenesis(s, b)
  {
    if a != [] {
      LastRow(s, a);
    }
    if b != [] {
      LastRow(s, b);
    }
    if a != [] && b != [] {
      var n, m := |a| - 1, |b| - 1;
      if a[n].payload == b[m].payload {
        EqualHeadsMeanEqualLogs(s, a[..n], b[..m]);
        CollisionOfPrefixes(s, a, b, n, m);
        CollisionOfPrefixes(s, b, a, m, n);
        if SameContent(a[..n], b[..m]) {
          forall i | 0 <= i < |a| ensures a[i].payload == b[i].payload && a[i].entryHash == b[i].entryHash {
            if i < n {
              assert a[..n][i].payload == b[..m][i].payload && a[..n][i].entryHash == b[..m][i].entryHash;
            }
          }
        }
      }
    }
  }

  /** Editing hashed fields of one row in place is reported at that row, unless the new contents
      hash to the same value. */
  lemma EditIsReported(s: Scheme, rows: seq<Row>, k: nat, payload: Payload)
    requires ValidLog(s, rows) && k < |rows|
    ensures FirstFault(s, rows[k := rows[k].(payload := payload)],
                       if s.hash(payload) == s.hash(rows[k].payload) && payload.prevHash == rows[k].payload.prevHash
                       then |rows| else k)
  {
    var edited := rows[k := rows[k].(payload := payload)];
    forall i | 0 <= i < |rows| ensures i != k ==> FaultAt(s, edited, i) == None {
      assert FaultAt(s, rows, i).None?;
    }
    assert FaultAt(s, rows, k).None?;
    assert edited[..|rows|] == edited;
    forall i | 0 <= i < k ensures FaultAt(s, edited[..k], i).None? {
      PrefixFaults(s, edited, k, i);
    }
  }

  function Without(rows: seq<Row>, k: nat): seq<Row>
    requires k < |rows|
  {
    rows[..k] + rows[k + 1..]
  }

  lemma FaultsWithout(s: Scheme, rows: seq<Row>, k: nat, i: nat)
    requires k < |rows| && i < |Without(rows, k)|
    ensures i < k ==> FaultAt(s, Without(rows, k), i) == FaultAt(s, rows, i)
    ensures i > k ==> FaultAt(s, Without(rows, k), i) == FaultAt(s, rows, i + 1)
    ensures i == k ==> FaultAt(s, Without(rows, k), i) == RowFault(s, Head(s, rows[..k]), rows[k + 1])
  {
    hide RowFault;
  }

  /** Taking one row out is reported as a broken link at the row after it, unless nothing follows
      it or its hash is also that of the row before it. */
  lemma RemovalIsReported(s: Scheme, rows: seq<Row>, k: nat)
    requires ValidLog(s, rows) && k < |rows|
    ensures var unseen := k + 1 == |rows| || rows[k].entryHash == Head(s, rows[..k]);
            && FirstFault(s, Without(rows, k), if unseen then |Without(rows, k)| else k)
            && (!unseen ==> FaultAt(s, Without(rows, k), k) == Some(BrokenLink))
  {
    var fewer := Without(rows, k);
    assert fewer[..k] == rows[..k] && fewer[..|fewer|] == fewer;
    PrefixesAreValid(s, rows, k);
    if k + 1 == |rows| {
      assert fewer == rows[..k];
    } else {
      FaultsWithout(s, rows, k, k);
      assert FaultAt(s, rows, k + 1).None?;
      if rows[k].entryHash == Head(s, rows[..k]) {
        hide RowFault;
        forall i | 0 <= i < |fewer| ensures FaultAt(s, fewer, i).None? {
          FaultsWithout(s, rows, k, i);
          assert FaultAt(s, rows, if i < k then i else i + 1).None?;
        }
      }
    }
  }

  // ---- appending ----

  /** Valid, and numbered from one without gaps or repeats. */
  ghost predicate WellFormed(s: Scheme, rows: seq<Row>) {
    ValidLog(s, rows) && Numbered(rows)
  }

  function NextRow(s: Scheme, last: Option<Row>, entry: Entry, createdAt: string): Row {
    match last
    case None => BuildRow(s, entry, 1, s.genesis, createdAt)
    case Some(r) => BuildRow(s, entry, r.payload.number + 1, r.entryHash, createdAt)
  }

  function Last(rows: seq<Row>): Option<Row> {
    if rows == [] then None else Some(rows[|rows| - 1])
  }

  lemma AppendKeepsWellFormed(s: Scheme, rows: seq<Row>, entry: Entry, createdAt: string)
    requires s.Sound() && WellFormed(s, rows)
    ensures WellFormed(s, rows + [NextRow(s, Last(rows), entry, createdAt)])
  {
    var row := NextRow(s, Last(rows), entry, createdAt);
    var more := rows + [row];
    BuiltRowIsAccepted(s, entry, row.payload.number, Head(s, rows), createdAt);
    forall i | 0 <= i < |more| ensures FaultAt(s, more, i).None? {
      if i < |rows| {
        assert more[..|rows|] == rows;
        PrefixFaults(s, more, |rows|, i);
      }
    }
  }

  // ---- verification does not look at the numbers ----

  ghost predicate Numbered(rows: seq<Row>) {
    forall i :: 0 <= i < |rows| ==> rows[i].payload.number == i + 1
  }

  // How verification gets its rows: numbers are unique, and it sorts by them.
  ghost predicate Sorted(rows: seq<Row>) {
    forall i, j :: 0 <= i < j < |rows| ==> rows[i].payload.number < rows[j].payload.number
  }

  /** A log of one row verifies whatever its number. */
  lemma AnyNumberVerifies(s: Scheme, entry: Entry, number: int, createdAt: string)
    requires s.Sound()
    ensures ValidLog(s, [BuildRow(s, entry, number, s.genesis, createdAt)])
  {
    BuiltRowIsAccepted(s, entry, number, s.genesis, createdAt);
  }

  lemma BuiltRowIsAccepted(s: Scheme, entry: Entry, number: int, prevHash: string, createdAt: string)
    requires s.Sound()
    ensures RowFault(s, prevHash, BuildRow(s, entry, number, prevHash, createdAt)).None?
  {
    var row := BuildRow(s, entry, number, prevHash, createdAt);
    if s.signer.Some? {
      var k := s.signer.value;
      assert k.verify(row.entryHash, k.sign(row.entryHash)) && k.sign(row.entryHash) != "";
    }
  }

  lemma {:induction false} SortedLeavesRoom(rows: seq<Row>, i: nat, j: nat)
    requires Sorted(rows) && i <= j < |rows|
    ensures rows[i].payload.number + (j - i) <= rows[j].payload.number
    decreases j - i
  {
    if i == j {
    } else {
      SortedLeavesRoom(rows, i, j - 1);
    }
  }

  /** A log listed in the order of its numbers is numbered 1 to n exactly when its first number is
      1 and its last is the number of rows: two figures that a verified log's owner can compare,
      and that verification leaves alone. */
  lemma NumberedExactlyWhenEndsFit(rows: seq<Row>)
    requires Sorted(rows)
    ensures Numbered(rows)
            <==> rows == [] || (rows[0].payload.number == 1 && rows[|rows| - 1].payload.number == |rows|)
  {
    if rows != [] && rows[0].payload.number == 1 && rows[|rows| - 1].payload.number == |rows| {
      forall i | 0 <= i < |rows| ensures rows[i].payload.number == i + 1 {
        SortedLeavesRoom(rows, 0, i);
        SortedLeavesRoom(rows, i, |rows| - 1);
      }
    }
  }

  /** A valid log is well formed exactly when its rows are in order and its ends fit. */
  lemma WellFormedExactlyWhen(s: Scheme, rows: seq<Row>)
    requires ValidLog(s, rows)
    ensures WellFormed(s, rows)
            <==> && Sorted(rows)
                 && (rows != [] ==> rows[0].payload.number == 1 && rows[|rows| - 1].payload.number == |rows|)
  {
    if Sorted(rows) {
      NumberedExactlyWhenEndsFit(rows);
    }
  }

  /** For every gap there is a log in order that verifies in spite of it. */
  lemma GapsVerify(s: Scheme, entry: Entry, number: int, createdAt: string) returns (rows: seq<Row>)
    requires s.Sound() && number > 2
    ensures ValidLog(s, rows) && Sorted(rows) && !Numbered(rows)
    ensures |rows| == 2 && rows[0].payload.number == 1 && rows[1].payload.number == number
  {
    var first := BuildRow(s, entry, 1, s.genesis, createdAt);
    rows := [first, BuildRow(s, entry, number, first.entryHash, createdAt)];
    BuiltRowIsAccepted(s, entry, 1, s.genesis, createdAt);
    BuiltRowIsAccepted(s, entry, number, first.entryHash, createdAt);
    assert forall i :: 0 <= i < 2 ==> FaultAt(s, rows, i).None?;
    assert rows[1].payload.number != 1 + 1;
  }

  class AuditTable {
    const scheme: Scheme
    var rows: seq<Row>

    constructor (scheme: Scheme)
      ensures this.scheme == scheme && rows == []
    {
      this.scheme, rows := scheme, [];
    }

    /** One append while the table is locked. */
    method Append(entry: Entry, createdAt: string) returns (row: Row)
      modifies this
      ensures rows == old(rows) + [row] && row.payload.entry == entry && row.payload.createdAt == createdAt
      ensures scheme.Sound() && old(WellFormed(scheme, rows)) ==> WellFormed(scheme, rows)
    {
      ghost var before := rows;
      var last := if |rows| == 0 then None else Some(rows[|rows| - 1]);
      row := BuildRow(scheme, entry,
                      if last.Some? then last.value.payload.number + 1 else 1,
                      if last.Some? then last.value.entryHash else scheme.genesis,
                      createdAt);
      rows := rows + [row];
      assert row == NextRow(scheme, Last(before), entry, createdAt);
      if scheme.Sound() && WellFormed(scheme, before) {
        AppendKeepsWellFormed(scheme, before, entry, createdAt);
      }
    }
  }

  // ---- concurrent transactions and the advisory lock ----

  /** The transaction that holds the lock: what it has read, and the rows it has added. */
  datatype Transaction = Transaction(session: int, read: Option<Option<Row>>, added: seq<Row>)

  datatype Database = Database(committed: seq<Row>, holder: Option<Transaction>)

  /** Steps any session may attempt at any time. Locking waits while another session holds the
      lock; the other steps are only taken by the session that holds it. */
  datatype Step =
    | Lock(session: int)
    | ReadLast(session: int)
    | Add(session: int, entry: Entry, createdAt: string)
    | Commit(session: int)
    | Rollback(session: int)

  predicate Holds(db: Database, session: int) {
    db.holder.Some? && db.holder.value.session == session
  }

  // What the lock holder sees: everything committed, and its own rows.
  function Visible(db: Database): seq<Row> {
    db.committed + if db.holder.Some? then db.holder.value.added else []
  }

  function DbStep(s: Scheme, db: Database, step: Step): Database {
    if step.Lock? then
      // Taking the lock again within a transaction starts the next append.
      if db.holder.None? then db.(holder := Some(Transaction(step.session, None, [])))
      else if Holds(db, step.session) then db.(holder := Some(db.holder.value.(read := None)))
      else db
    else if !Holds(db, step.session) then db
    else
      var t := db.holder.value;
      match step
      case ReadLast(_) => db.(holder := Some(t.(read := Some(Last(Visible(db))))))
      case Add(_, entry, createdAt) =>
        if t.read.None? then db
        else db.(holder := Some(t.(read := None, added := t.added + [NextRow(s, t.read.value, entry, createdAt)])))
      case Commit(_) => Database(db.committed + t.added, None)
      case Rollback(_) => Database(db.committed, None)
      case Lock(_) => db
  }

  function DbRunFrom(s: Scheme, db: Database, steps: seq<Step>): Database {
    if steps == [] then db else DbStep(s, DbRunFrom(s, db, steps[..|steps| - 1]), steps[|steps| - 1])
  }

  function DbRun(s: Scheme, steps: seq<Step>): Database {
    DbRunFrom(s, Database([], None), steps)
  }

  // ---- what a transaction leaves ----

  ghost predicate ByOthers(steps: seq<Step>, session: int) {
    forall i :: 0 <= i < |steps| ==> steps[i].session != session
  }

  // While a session holds the lock, the steps of all others do nothing.
  lemma {:induction false} OthersWait(s: Scheme, db: Database, steps: seq<Step>, session: int)
    requires Holds(db, session) && ByOthers(steps, session)
    ensures DbRunFrom(s, db, steps) == db
  {
    if steps == [] {
    } else {
      OthersWait(s, db, steps[..|steps| - 1], session);
    }
  }

  // One append of a session, with steps of other sessions in between.
  function AppendBy(session: int, entry: Entry, createdAt: string, a: seq<Step>, b: seq<Step>, c: seq<Step>): seq<Step> {
    [Lock(session)] + a + [ReadLast(session)] + b + [Add(session, entry, createdAt)] + c
  }

  lemma RunFromStep(s: Scheme, db: Database, steps: seq<Step>, step: Step)
    ensures DbRunFrom(s, db, steps + [step]) == DbStep(s, DbRunFrom(s, db, steps), step)
  {
    assert (steps + [step])[..|steps|] == steps;
  }

  lemma {:induction false} RunFromJoins(s: Scheme, db: Database, before: seq<Step>, after: seq<Step>)
    ensures DbRunFrom(s, db, before + after) == DbRunFrom(s, DbRunFrom(s, db, before), after)
    decreases |after|
  {
    hide DbStep;
    if after == [] {
      assert before + after == before;
    } else {
      var n := |after| - 1;
      RunFromJoins(s, db, before, after[..n]);
      assert (before + after)[..|before + after| - 1] == before + after[..n];
    }
  }

  // Up to the commit.
  lemma AppendedBy(s: Scheme, db: Database, session: int, entry: Entry, createdAt: string,
                   a: seq<Step>, b: seq<Step>, c: seq<Step>)
    requires db.holder.None? && ByOthers(a, session) && ByOthers(b, session) && ByOthers(c, session)
    ensures DbRunFrom(s, db, AppendBy(session, entry, createdAt, a, b, c))
            == db.(holder := Some(Transaction(session, None, [NextRow(s, Last(db.committed), entry, createdAt)])))
  {
    hide DbRunFrom, NextRow, ByOthers, Last;
    var locked := db.(holder := Some(Transaction(session, None, [])));
    var read := db.(holder := Some(Transaction(session, Some(Last(db.committed)), [])));
    var added := db.(holder := Some(Transaction(session, None, [NextRow(s, Last(db.committed), entry, createdAt)])));
    assert db.committed + [] == db.committed;
    assert [] + [NextRow(s, Last(db.committed), entry, createdAt)] == [NextRow(s, Last(db.committed), entry, createdAt)];
    RunFromNothing(s, db);
    RunFromStep(s, db, [], Lock(session));
    assert [] + [Lock(session)] == [Lock(session)];
    OthersWait(s, locked, a, session);
    RunFromJoins(s, db, [Lock(session)], a);
    RunFromStep(s, db, [Lock(session)] + a, ReadLast(session));
    OthersWait(s, read, b, session);
    RunFromJoins(s, db, [Lock(session)] + a + [ReadLast(session)], b);
    RunFromStep(s, db, [Lock(session)] + a + [ReadLast(session)] + b, Add(session, entry, createdAt));
    OthersWait(s, added, c, session);
    RunFromJoins(s, db, [Lock(session)] + a + [ReadLast(session)] + b + [Add(session, entry, createdAt)], c);
  }

  lemma RunFromNothing(s: Scheme, db: Database)
    ensures DbRunFrom(s, db, []) == db
  {
  }

  /** A session that finds the lock free, appends and commits, leaves the committed log one row longer,
      whatever the others attempt meanwhile: that row has its entry and its time, and is numbered after
      and linked to the row before. Rolling back leaves nothing. */
  lemma CommitAddsTheRow(s: Scheme, steps: seq<Step>, session: int, entry: Entry, createdAt: string,
                         a: seq<Step>, b: seq<Step>, c: seq<Step>)
    requires s.Sound() && DbRun(s, steps).holder.None?
    requires ByOthers(a, session) && ByOthers(b, session) && ByOthers(c, session)
    ensures var before := DbRun(s, steps).committed;
            var done := DbRun(s, steps + AppendBy(session, entry, createdAt, a, b, c) + [Commit(session)]);
            && done.holder.None? && |done.committed| == |before| + 1 && done.committed[..|before|] == before
            && var row := done.committed[|before|].payload;
               row.entry == entry && row.createdAt == createdAt
               && row.number == |before| + 1 && row.prevHash == Head(s, before)
    ensures DbRun(s, steps + AppendBy(session, entry, createdAt, a, b, c) + [Rollback(session)]) == DbRun(s, steps)
  {
    var db, append := DbRun(s, steps), AppendBy(session, entry, createdAt, a, b, c);
    CommittedLogIsWellFormed(s, steps);
    assert db.committed != [] ==> db.committed[|db.committed| - 1].payload.number == |db.committed|;
    hide DbRunFrom, AppendBy, ByOthers, Serialised, WellFormed, ValidLog, Numbered;
    RunFromJoins(s, Database([], None), steps, append);
    AppendedBy(s, db, session, entry, createdAt, a, b, c);
    RunFromStep(s, Database([], None), steps + append, Commit(session));
    RunFromStep(s, Database([], None), steps + append, Rollback(session));
  }

  ghost predicate Serialised(s: Scheme, db: Database) {
    && WellFormed(s, db.committed) && WellFormed(s, Visible(db))
    && (db.holder.Some? && db.holder.value.read.Some? ==> db.holder.value.read.value == Last(Visible(db)))
  }

  lemma StepKeepsSerialised(s: Scheme, db: Database, step: Step)
    requires s.Sound() && Serialised(s, db)
    ensures Serialised(s, DbStep(s, db, step))
    ensures db.committed <= DbStep(s, db, step).committed
  {
    hide WellFormed, NextRow;
    var db' := DbStep(s, db, step);
    assert db.committed + [] == db.committed;
    if step.Add? && db' != db {
      AppendKeepsWellFormed(s, Visible(db), step.entry, step.createdAt);
      assert Visible(db') == Visible(db) + [NextRow(s, Last(Visible(db)), step.entry, step.createdAt)];
    }
    assert db'.committed + [] == db'.committed;
  }

  /** However sessions interleave, the committed log verifies, is numbered 1 to n, and so has
      no fork. */
  lemma {:induction false} CommittedLogIsWellFormed(s: Scheme, steps: seq<Step>)
    requires s.Sound()
    ensures Serialised(s, DbRun(s, steps))
  {
    hide WellFormed, DbStep;
    if steps == [] {
      EmptyIsSerialised(s);
    } else {
      CommittedLogIsWellFormed(s, steps[..|steps| - 1]);
      StepKeepsSerialised(s, DbRun(s, steps[..|steps| - 1]), steps[|steps| - 1]);
    }
  }

  lemma EmptyIsSerialised(s: Scheme)
    ensures Serialised(s, Database([], None))
  {
  }

  /** What has once been committed stays: later logs extend earlier ones. */
  lemma {:induction false} CommittedOnlyGrows(s: Scheme, steps: seq<Step>, n: nat)
    requires s.Sound() && n <= |steps|
    ensures DbRun(s, steps[..n]).committed <= DbRun(s, steps).committed
  {
    hide DbStep, Serialised;
    if n == |steps| {
      assert steps[..n] == steps;
    } else {
      var m := |steps| - 1;
      CommittedOnlyGrows(s, steps[..m], n);
      assert steps[..m][..n] == steps[..n];
      CommittedLogIsWellFormed(s, steps[..m]);
      StepKeepsSerialised(s, DbRun(s, steps[..m]), steps[m]);
    }
  }
}
