/**
 Refresh-token sessions (backend/src/auth/tokens.py): rotation with reuse detection, the technique
 of section 5.2.2.3 of RFC 6819.  Every call is one transaction.
 */
module Sessions {

  datatype Row = Row(id: string, user: string, hash: string, revoked: bool)

  /** Ambiguous is the exception raised when two rows match where one was expected. */
  datatype Outcome = NotFound | Ambiguous | Reused | Rotated

  datatype Op =
    | Create(id: string, user: string, hash: string)
    | Rotate(id: string, user: string, oldHash: string, hash: string)
    | RevokeOne(id: string, user: string)
    | RevokeAll(user: string)

  predicate Holds(r: Row, user: string, hash: string) {
    r.user == user && r.hash == hash
  }

  /** The rows a token lookup finds. */
  function Found(rows: seq<Row>, user: string, hash: string): (found: seq<nat>)
    ensures forall i :: 0 <= i < |found| ==> found[i] < |rows| && Holds(rows[found[i]], user, hash)
    ensures forall k: nat :: k < |rows| && Holds(rows[k], user, hash) ==> k in found
    ensures forall i, j :: 0 <= i < j < |found| ==> found[i] < found[j]
  {
    if rows == [] then []
    else
      var last := |rows| - 1;
      var found := Found(rows[..last], user, hash);
      if Holds(rows[last], user, hash) then found + [last] else found
  }

  function Revoke(r: Row): Row {
    r.(revoked := true)
  }

  function RevokeWhere(rows: seq<Row>, which: Row -> bool): (after: seq<Row>)
    ensures |after| == |rows|
    ensures forall i :: 0 <= i < |rows| ==> after[i] == if which(rows[i]) then Revoke(rows[i]) else rows[i]
  {
    seq(|rows|, i requires 0 <= i < |rows| => if which(rows[i]) then Revoke(rows[i]) else rows[i])
  }

  function RevokeUser(rows: seq<Row>, user: string): seq<Row> {
    RevokeWhere(rows, (r: Row) => r.user == user)
  }

  /** How many sessions of a user are live. */
  function Live(rows: seq<Row>, user: string): nat {
    if rows == [] then 0
    else
      var last := rows[|rows| - 1];
      Live(rows[..|rows| - 1], user) + if last.user == user && !last.revoked then 1 else 0
  }

  function Presented(rows: seq<Row>, user: string, hash: string): Outcome {
    var found := Found(rows, user, hash);
    if found == [] then NotFound
    else if |found| > 1 then Ambiguous
    else if rows[found[0]].revoked then Reused
    else Rotated
  }

  /** The row of the token that rotates. */
  function Holder(rows: seq<Row>, user: string, hash: string): (k: nat)
    requires Presented(rows, user, hash) == Rotated
    ensures k < |rows| && Holds(rows[k], user, hash) && !rows[k].revoked
  {
    Found(rows, user, hash)[0]
  }

  predicate AddsRow(rows: seq<Row>, op: Op) {
    op.Create? || (op.Rotate? && Presented(rows, op.user, op.oldHash) == Rotated)
  }

  function Next(rows: seq<Row>, op: Op): (after: seq<Row>)
    ensures |after| == |rows| + if AddsRow(rows, op) then 1 else 0
  {
    match op
    case Create(id, user, hash) => rows + [Row(id, user, hash, false)]
    case Rotate(id, user, oldHash, hash) =>
      (match Presented(rows, user, oldHash)
       case Rotated =>
         var k := Holder(rows, user, oldHash);
         rows[k := Revoke(rows[k])] + [Row(id, user, hash, false)]
       case Reused => RevokeUser(rows, user)
       case _ => rows)
    case RevokeOne(id, user) => RevokeWhere(rows, (r: Row) => r.id == id && r.user == user)
    case RevokeAll(user) => RevokeUser(rows, user)
  }

  class SessionTable {
    var rows: seq<Row>

    constructor ()
      ensures rows == []
    {
      rows := [];
    }

    method CreateSession(id: string, user: string, hash: string)
      modifies this
      ensures rows == Next(old(rows), Create(id, user, hash))
    {
      rows := rows + [Row(id, user, hash, false)];
    }

    method RotateRefreshToken(id: string, user: string, oldHash: string, hash: string) returns (o: Outcome)
      modifies this
      ensures o == Presented(old(rows), user, oldHash)
      ensures rows == Next(old(rows), Rotate(id, user, oldHash, hash))
    {
      var existing := Found(rows, user, oldHash);
      if |existing| == 0 {
        return NotFound;
      }
      if |existing| > 1 {
        return Ambiguous;
      }
      var k := existing[0];
      if rows[k].revoked {
        rows := RevokeUser(rows, user);
        return Reused;
      }
      rows := rows[k := Revoke(rows[k])];
      rows := rows + [Row(id, user, hash, false)];
      o := Rotated;
    }

    /** True also for a session that was revoked before. */
    method RevokeSession(id: string, user: string) returns (found: bool)
      modifies this
      ensures found <==> exists r :: r in old(rows) && r.id == id && r.user == user
      ensures rows == Next(old(rows), RevokeOne(id, user))
    {
      found := exists r :: r in rows && r.id == id && r.user == user;
      rows := RevokeWhere(rows, (r: Row) => r.id == id && r.user == user);
    }

    method RevokeAllSessions(user: string) returns (count: nat)
      modifies this
      ensures count == Live(old(rows), user) && Live(rows, user) == 0
      ensures rows == Next(old(rows), RevokeAll(user))
    {
      count := Live(rows, user);
      LiveAfterRevokeUser(rows, user, user);
      rows := RevokeUser(rows, user);
    }
  }

  // ----- one call -----

  /** What a presented token leads to, in terms of the rows alone. */
  lemma PresentedIff(rows: seq<Row>, user: string, hash: string)
    ensures Presented(rows, user, hash).NotFound? <==> forall r :: r in rows ==> !Holds(r, user, hash)
    ensures Presented(rows, user, hash).Ambiguous? <==>
      exists i, j :: 0 <= i < j < |rows| && Holds(rows[i], user, hash) && Holds(rows[j], user, hash)
  {
    var found := Found(rows, user, hash);
    if found == [] {
      assert forall k: nat :: k < |rows| ==> k !in found;
    } else {
      assert found[0] in found && rows[found[0]] in rows;
      if |found| > 1 {
        assert found[1] in found;
      }
    }
  }

  /** A revoked token is caught exactly when no other session of the user has its hash. */
  lemma RevokedIsCaughtIff(rows: seq<Row>, user: string, hash: string, k: nat)
    requires k < |rows| && Holds(rows[k], user, hash) && rows[k].revoked
    ensures Presented(rows, user, hash).Reused? <==>
      forall i :: 0 <= i < |rows| && i != k ==> !Holds(rows[i], user, hash)
    ensures Presented(rows, user, hash) != Rotated
  {
    var found := Found(rows, user, hash);
    assert k in found;
    if |found| == 1 {
      forall i | 0 <= i < |rows| && i != k
        ensures !Holds(rows[i], user, hash)
      {
        assert i !in found;
      }
    } else {
      assert found[0] in found && found[1] in found;
    }
  }

  lemma {:induction false} LiveAfterRevokeUser(rows: seq<Row>, user: string, other: string)
    ensures Live(RevokeUser(rows, user), other) == if other == user then 0 else Live(rows, other)
  {
    if rows != [] {
      LiveAfterRevokeUser(rows[..|rows| - 1], user, other);
      assert RevokeUser(rows, user)[..|rows| - 1] == RevokeUser(rows[..|rows| - 1], user);
    }
  }

  lemma {:induction false} LiveAfterRevokeAt(rows: seq<Row>, k: nat, user: string)
    requires k < |rows|
    ensures Live(rows, user) == Live(rows[k := Revoke(rows[k])], user)
                                + if rows[k].user == user && !rows[k].revoked then 1 else 0
  {
    var n, after := |rows| - 1, rows[k := Revoke(rows[k])];
    if k < n {
      LiveAfterRevokeAt(rows[..n], k, user);
      assert after[..n] == rows[..n][k := Revoke(rows[k])];
    } else {
      assert after[..n] == rows[..n];
    }
  }

  /** No session of the user has the hash. */
  ghost predicate NewTo(rows: seq<Row>, user: string, hash: string) {
    forall i :: 0 <= i < |rows| ==> !Holds(rows[i], user, hash)
  }

  lemma AddedRow(rows: seq<Row>, op: Op) returns (before: seq<Row>)
    requires AddsRow(rows, op) && NewTo(rows, op.user, op.hash)
    ensures Next(rows, op) == before + [Row(op.id, op.user, op.hash, false)] && NewTo(before, op.user, op.hash)
  {
    before := rows;
    if op.Rotate? {
      var k := Holder(rows, op.user, op.oldHash);
      before := rows[k := Revoke(rows[k])];
    }
  }

  lemma PresentsTheOnly(rows: seq<Row>, k: nat, user: string, hash: string)
    requires k < |rows| && Holds(rows[k], user, hash)
    requires forall i :: 0 <= i < |rows| && i != k ==> !Holds(rows[i], user, hash)
    ensures Presented(rows, user, hash) == if rows[k].revoked then Reused else Rotated
  {
    var found := Found(rows, user, hash);
    assert k in found && forall i :: 0 <= i < |found| ==> found[i] == k;
    OneIfSame(found, k);
  }

  lemma OneIfSame(found: seq<nat>, k: nat)
    requires found != [] && forall i :: 0 <= i < |found| ==> found[i] == k
    requires forall i, j :: 0 <= i < j < |found| ==> found[i] < found[j]
    ensures found == [k]
  {
    assert found[0] == k && found[|found| - 1] == k;
  }

  lemma NewRowWorks(before: seq<Row>, r: Row, rows: seq<Row>)
    requires NewTo(before, r.user, r.hash) && rows == before + [r] && !r.revoked
    ensures Presented(rows, r.user, r.hash) == Rotated
    ensures Presented(Next(rows, RevokeOne(r.id, r.user)), r.user, r.hash) == Reused
  {
    PresentsTheOnly(rows, |before|, r.user, r.hash);
    var after := Next(rows, RevokeOne(r.id, r.user));
    PresentsTheOnly(after, |before|, r.user, r.hash);
  }

  /** The token of a new session, if its hash is new to the user, rotates when it is presented; revoked under
      the session's id, it is caught. */
  lemma NewTokenWorks(rows: seq<Row>, op: Op)
    requires AddsRow(rows, op) && NewTo(rows, op.user, op.hash)
    ensures Presented(Next(rows, op), op.user, op.hash) == Rotated
    ensures Presented(Next(Next(rows, op), RevokeOne(op.id, op.user)), op.user, op.hash) == Reused
  {
    var before := AddedRow(rows, op);
    NewRowWorks(before, Row(op.id, op.user, op.hash, false), Next(rows, op));
  }

  /** How many live sessions of the user have this id. */
  function LiveWithId(rows: seq<Row>, id: string, user: string): nat {
    if rows == [] then 0
    else
      var last := rows[|rows| - 1];
      LiveWithId(rows[..|rows| - 1], id, user) + if last.id == id && last.user == user && !last.revoked then 1 else 0
  }

  lemma {:induction false} LiveAfterRevokeOne(rows: seq<Row>, id: string, user: string, other: string)
    ensures Live(Next(rows, RevokeOne(id, user)), other)
         == Live(rows, other) - if other == user then LiveWithId(rows, id, user) else 0
  {
    if rows != [] {
      LiveAfterRevokeOne(rows[..|rows| - 1], id, user, other);
      assert Next(rows, RevokeOne(id, user))[..|rows| - 1] == Next(rows[..|rows| - 1], RevokeOne(id, user));
    }
  }

  lemma LiveAfterAppend(rows: seq<Row>, r: Row, user: string)
    ensures Live(rows + [r], user) == Live(rows, user) + if r.user == user && !r.revoked then 1 else 0
  {
    assert (rows + [r])[..|rows|] == rows;
  }

  /** How each call changes a user's number of live sessions: a rotation never does, a login adds one
      to its user, a reused token or revoking all leaves its user none, and revoking one session takes
      off the live ones with its id. */
  lemma LiveAfter(rows: seq<Row>, op: Op, user: string)
    ensures op.Create? ==> Live(Next(rows, op), user) == Live(rows, user) + if op.user == user then 1 else 0
    ensures op.Rotate? && Presented(rows, op.user, op.oldHash) != Reused ==>
      Live(Next(rows, op), user) == Live(rows, user)
    ensures op.RevokeAll? || (op.Rotate? && Presented(rows, op.user, op.oldHash) == Reused) ==>
      Live(Next(rows, op), user) == if op.user == user then 0 else Live(rows, user)
    ensures op.RevokeOne? ==>
      Live(Next(rows, op), user) == Live(rows, user) - if op.user == user then LiveWithId(rows, op.id, user) else 0
  {
    match op
    case Create(id, u, hash) => LiveAfterAppend(rows, Row(id, u, hash, false), user);
    case Rotate(id, u, oldHash, hash) =>
      LiveAfterRevokeUser(rows, u, user);
      if Presented(rows, u, oldHash) == Rotated {
        var k := Holder(rows, u, oldHash);
        LiveAfterRevokeAt(rows, k, user);
        LiveAfterAppend(rows[k := Revoke(rows[k])], Row(id, u, hash, false), user);
      }
    case RevokeOne(id, u) => LiveAfterRevokeOne(rows, id, u, user);
    case RevokeAll(u) => LiveAfterRevokeUser(rows, u, user);
  }

  /** Rows are only ever added, keep what they say, and stay revoked. */
  ghost predicate Extends(rows: seq<Row>, after: seq<Row>) {
    && |rows| <= |after|
    && forall i :: 0 <= i < |rows| ==>
         after[i] == rows[i] || after[i] == Revoke(rows[i])
  }

  lemma NextExtends(rows: seq<Row>, op: Op)
    ensures Extends(rows, Next(rows, op))
  {
  }

  // ----- whole runs -----

  /** The table together with, for each row, the login its rotation chain began with. */
  datatype History = History(rows: seq<Row>, login: seq<nat>)

  function Recorded(h: History, op: Op): History
    requires |h.login| == |h.rows|
  {
    History(Next(h.rows, op),
            if !AddsRow(h.rows, op) then h.login
            else h.login + [if op.Create? then |h.rows| else h.login[Holder(h.rows, op.user, op.oldHash)]])
  }

  function Run(ops: seq<Op>): (h: History)
    ensures |h.login| == |h.rows|
  {
    if ops == [] then History([], []) else Recorded(Run(ops[..|ops| - 1]), ops[|ops| - 1])
  }

  /** Each row belongs to the user of the login it descends from, and of the rows of one login only the
      last may be live. */
  ghost predicate Chains(h: History) {
    && |h.login| == |h.rows|
    && (forall i :: 0 <= i < |h.rows| ==> h.login[i] <= i && h.rows[h.login[i]].user == h.rows[i].user)
    && (forall i, j :: 0 <= i < j < |h.rows| && h.login[i] == h.login[j] ==> h.rows[i].revoked)
  }

  /** A row can join a chain whose sessions are all revoked, or begin one. */
  lemma RowJoins(h: History, login: nat, r: Row)
    requires Chains(h) && login <= |h.rows| && (login < |h.rows| ==> h.rows[login].user == r.user)
    requires forall i :: 0 <= i < |h.rows| && h.login[i] == login ==> h.rows[i].revoked
    ensures Chains(History(h.rows + [r], h.login + [login]))
  {
  }

  lemma HolderIsLast(h: History, k: nat, r: Row)
    requires Chains(h) && k < |h.rows| && !h.rows[k].revoked && r.user == h.rows[k].user
    ensures Chains(History(h.rows[k := Revoke(h.rows[k])] + [r], h.login + [h.login[k]]))
  {
    var revoked := History(h.rows[k := Revoke(h.rows[k])], h.login);
    assert Chains(revoked);
    assert forall i :: k < i < |h.rows| ==> h.login[i] != h.login[k];
    RowJoins(revoked, h.login[k], r);
  }

  lemma RevocationKeepsChains(h: History, after: seq<Row>)
    requires Chains(h) && Extends(h.rows, after) && |after| == |h.rows|
    ensures Chains(History(after, h.login))
  {
  }

  lemma RecordedKeepsChains(h: History, op: Op)
    requires Chains(h)
    ensures Chains(Recorded(h, op))
  {
    if !AddsRow(h.rows, op) {
      NextExtends(h.rows, op);
      RevocationKeepsChains(h, Next(h.rows, op));
    } else if op.Rotate? {
      HolderIsLast(h, Holder(h.rows, op.user, op.oldHash), Row(op.id, op.user, op.hash, false));
    } else {
      RowJoins(h, |h.rows|, Row(op.id, op.user, op.hash, false));
    }
  }

  lemma {:induction false} RunKeepsChains(ops: seq<Op>)
    ensures Chains(Run(ops))
  {
    if ops != [] {
      RunKeepsChains(ops[..|ops| - 1]);
      RecordedKeepsChains(Run(ops[..|ops| - 1]), ops[|ops| - 1]);
    }
  }

  /** In every run at most one session of a login's rotation chain is live, and all of a chain belong to
      one user. */
  lemma OneLivePerLogin(ops: seq<Op>, i: nat, j: nat)
    requires i < |Run(ops).rows| && j < |Run(ops).rows|
    requires Run(ops).login[i] == Run(ops).login[j]
    ensures Run(ops).rows[i].user == Run(ops).rows[j].user
    ensures !Run(ops).rows[i].revoked && !Run(ops).rows[j].revoked ==> i == j
  {
    RunKeepsChains(ops);
  }

  function Logins(ops: seq<Op>, user: string): nat {
    if ops == [] then 0
    else
      var last := ops[|ops| - 1];
      Logins(ops[..|ops| - 1], user) + if last.Create? && last.user == user then 1 else 0
  }

  /** However often tokens are rotated, a user never has more live sessions than logins. */
  lemma {:induction false} LiveAtMostLogins(ops: seq<Op>, user: string)
    ensures Live(Run(ops).rows, user) <= Logins(ops, user)
  {
    if ops != [] {
      LiveAtMostLogins(ops[..|ops| - 1], user);
      LiveAfter(Run(ops[..|ops| - 1]).rows, ops[|ops| - 1], user);
    }
  }

  /** Revoked is never cleared, over any stretch of a run. */
  lemma {:induction false} RunExtends(ops: seq<Op>, n: nat)
    requires n <= |ops|
    ensures Extends(Run(ops[..n]).rows, Run(ops).rows)
  {
    if n == |ops| {
      assert ops[..n] == ops;
    } else {
      var before := ops[..|ops| - 1];
      RunExtends(before, n);
      assert before[..n] == ops[..n];
      NextExtends(Run(before).rows, ops[|ops| - 1]);
    }
  }

  // ----- tokens presented twice -----

  predicate IsNew(rows: seq<Row>, op: Op) {
    op.Create? || op.Rotate? ==> forall r :: r in rows ==> r.hash != op.hash
  }

  /** No two tokens that were stored have the same hash. */
  ghost predicate Distinct(ops: seq<Op>) {
    forall n :: 0 <= n < |ops| ==> IsNew(Run(ops[..n]).rows, ops[n])
  }

  ghost predicate NoHashTwice(rows: seq<Row>) {
    forall i, j :: 0 <= i < j < |rows| ==> rows[i].hash != rows[j].hash
  }

  lemma NextKeepsHashes(rows: seq<Row>, op: Op)
    requires NoHashTwice(rows) && IsNew(rows, op)
    ensures NoHashTwice(Next(rows, op))
  {
    NextExtends(rows, op);
    assert forall i :: 0 <= i < |rows| ==> rows[i] in rows;
  }

  lemma {:induction false} RunKeepsHashes(ops: seq<Op>)
    requires Distinct(ops)
    ensures NoHashTwice(Run(ops).rows)
  {
    if ops != [] {
      var before := ops[..|ops| - 1];
      assert forall n :: 0 <= n < |before| ==> before[..n] == ops[..n];
      RunKeepsHashes(before);
      NextKeepsHashes(Run(before).rows, ops[|ops| - 1]);
    }
  }

  predicate IsRotation(ops: seq<Op>, n: nat, user: string, hash: string) {
    n < |ops| && ops[n].Rotate? && ops[n].user == user && ops[n].oldHash == hash
  }

  /** After a rotation the old token's row is there, revoked. */
  lemma RotationRevokes(rows: seq<Row>, op: Op) returns (k: nat)
    requires op.Rotate? && Presented(rows, op.user, op.oldHash) == Rotated
    ensures k < |rows| && k < |Next(rows, op)|
    ensures Holds(Next(rows, op)[k], op.user, op.oldHash) && Next(rows, op)[k].revoked
  {
    k := Holder(rows, op.user, op.oldHash);
  }

  /** A token rotates at most once in any run.  Presenting it again, by whichever of two holders comes
      second, is caught when hashes are distinct and leaves the user no live session. */
  lemma RotatesOnce(ops: seq<Op>, a: nat, b: nat, user: string, hash: string)
    requires a < b && IsRotation(ops, a, user, hash) && IsRotation(ops, b, user, hash)
    requires Presented(Run(ops[..a]).rows, user, hash) == Rotated
    ensures Presented(Run(ops[..b]).rows, user, hash) != Rotated
    ensures Distinct(ops) ==> Presented(Run(ops[..b]).rows, user, hash) == Reused
                              && Live(Run(ops[..b + 1]).rows, user) == 0
  {
    var k := StaysRevoked(ops, a, b, user, hash);
    RevokedIsCaughtIff(Run(ops[..b]).rows, user, hash, k);
    if Distinct(ops) {
      ReuseEndsAll(ops, b, k, user, hash);
    }
  }

  lemma RevokedAfterwards(rows: seq<Row>, after: seq<Row>, k: nat, user: string, hash: string)
    requires Extends(rows, after) && k < |rows| && Holds(rows[k], user, hash) && rows[k].revoked
    ensures k < |after| && Holds(after[k], user, hash) && after[k].revoked
  {
  }

  lemma OneMoreOp(ops: seq<Op>, a: nat, b: nat)
    requires a < b <= |ops|
    ensures ops[..b][..a + 1] == ops[..a + 1] && Run(ops[..a + 1]) == Recorded(Run(ops[..a]), ops[a])
  {
    assert ops[..a + 1][..a] == ops[..a];
  }

  lemma StaysRevoked(ops: seq<Op>, a: nat, b: nat, user: string, hash: string) returns (k: nat)
    requires a < b <= |ops| && IsRotation(ops, a, user, hash)
    requires Presented(Run(ops[..a]).rows, user, hash) == Rotated
    ensures var rows := Run(ops[..b]).rows; k < |rows| && Holds(rows[k], user, hash) && rows[k].revoked
  {
    k := RotationRevokes(Run(ops[..a]).rows, ops[a]);
    OneMoreOp(ops, a, b);
    RunExtends(ops[..b], a + 1);
    RevokedAfterwards(Run(ops[..a + 1]).rows, Run(ops[..b]).rows, k, user, hash);
  }

  lemma PrefixKeepsHashes(ops: seq<Op>, b: nat)
    requires Distinct(ops) && b <= |ops|
    ensures NoHashTwice(Run(ops[..b]).rows)
  {
    assert forall n :: 0 <= n < b ==> ops[..b][..n] == ops[..n];
    RunKeepsHashes(ops[..b]);
  }

  lemma ReuseCaught(rows: seq<Row>, k: nat, op: Op)
    requires NoHashTwice(rows) && op.Rotate?
    requires k < |rows| && Holds(rows[k], op.user, op.oldHash) && rows[k].revoked
    ensures Presented(rows, op.user, op.oldHash) == Reused && Live(Next(rows, op), op.user) == 0
  {
    RevokedIsCaughtIff(rows, op.user, op.oldHash, k);
    LiveAfter(rows, op, op.user);
  }

  /** However a session was revoked, presenting its token is caught and ends all the user's sessions. */
  lemma ReuseEndsAll(ops: seq<Op>, b: nat, k: nat, user: string, hash: string)
    requires Distinct(ops) && IsRotation(ops, b, user, hash)
    requires var rows := Run(ops[..b]).rows; k < |rows| && Holds(rows[k], user, hash) && rows[k].revoked
    ensures Presented(Run(ops[..b]).rows, user, hash) == Reused
    ensures Live(Run(ops[..b + 1]).rows, user) == 0
  {
    PrefixKeepsHashes(ops, b);
    ReuseCaught(Run(ops[..b]).rows, k, ops[b]);
    OneMoreOp(ops, b, b + 1);
  }

  /** If the new token had the old one's hash, reuse of either would go unpunished: every later
      presentation is ambiguous. */
  lemma SameHashHidesReuse(rows: seq<Row>, op: Op)
    requires op.Rotate? && op.hash == op.oldHash && Presented(rows, op.user, op.oldHash) == Rotated
    ensures Presented(Next(rows, op), op.user, op.oldHash) == Ambiguous
  {
    var k := RotationRevokes(rows, op);
    PresentedIff(Next(rows, op), op.user, op.oldHash);
  }
}
