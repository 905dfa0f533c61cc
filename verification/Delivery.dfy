/** A transaction that stores one-time tokens and the messages that carry them, sent only after the commit. */
module Delivery {
  import opened Prelude

  type Time = int
  type Hash = nat

  datatype Kind = Confirmation | Reauthentication | Recovery | ChangeNew | ChangeCurrent | PhoneChange

  datatype SentColumn = ConfirmationSent | ReauthenticationSent | RecoverySent | EmailChangeSent | PhoneChangeSent

  function SentAt(kind: Kind): SentColumn {
    match kind
    case Confirmation => ConfirmationSent
    case Reauthentication => ReauthenticationSent
    case Recovery => RecoverySent
    case ChangeNew => EmailChangeSent
    case ChangeCurrent => EmailChangeSent
    case PhoneChange => PhoneChangeSent
  }

  datatype Key = Key(user: int, kind: Kind)

  datatype Row = Row(hash: Hash, updatedAt: Time)

  // `rows` holds the live token of each kind, `columns` its copy on the user, `sent` when it went out.
  datatype Db = Db(rows: map<Key, Row>, columns: map<Key, Hash>, sent: map<(int, SentColumn), Time>)

  datatype Item = Item(key: Key, hash: Hash)

  // The tokens one queued message, or message pair, carries.
  type Message = seq<Item>

  // ---- inside the transaction ------------------------------------------------------------

  datatype Op =
    | SendLink(user: int, kind: Kind, hash: Hash, skipFrequency: bool)
    | SendChange(user: int, hashNew: Hash, hashCurrent: Option<Hash>)
    | ClearAll(user: int)

  datatype Ending = Success | PlainError | CommitError

  function Issue(db: Db, it: Item, now: Time): Db {
    db.(rows := db.rows[it.key := Row(it.hash, now)], columns := db.columns[it.key := it.hash],
        sent := db.sent[(it.key.user, SentAt(it.key.kind)) := now])
  }

  function IssueAll(db: Db, m: Message, now: Time): Db {
    if m == [] then db else Issue(IssueAll(db, m[..|m| - 1], now), m[|m| - 1], now)
  }

  predicate FrequencyAllows(db: Db, key: Key, frequency: nat, now: Time) {
    frequency == 0 || key !in db.rows || now >= db.rows[key].updatedAt + frequency
  }

  function MessageOf(op: Op): Message {
    match op
    case SendLink(u, kind, hash, _) => [Item(Key(u, kind), hash)]
    case SendChange(u, hashNew, hashCurrent) =>
      [Item(Key(u, ChangeNew), hashNew)]
      + (if hashCurrent.Some? then [Item(Key(u, ChangeCurrent), hashCurrent.value)] else [])
    case ClearAll(_) => []
  }

  predicate Allowed(db: Db, op: Op, frequency: nat, now: Time) {
    match op
    case SendLink(u, kind, _, skip) => skip || FrequencyAllows(db, Key(u, kind), frequency, now)
    case SendChange(u, _, _) => FrequencyAllows(db, Key(u, ChangeNew), frequency, now)
    case ClearAll(_) => true
  }

  /** The writes of one step; an email change without a second message blanks the other column. */
  function Effect(db: Db, op: Op, now: Time): Db {
    match op
    case SendLink(_, _, _, _) => IssueAll(db, MessageOf(op), now)
    case SendChange(u, _, _) => IssueAll(db.(columns := db.columns - {Key(u, ChangeCurrent)}), MessageOf(op), now)
    case ClearAll(u) => db.(rows := map k | k in db.rows && k.user != u :: db.rows[k])
  }

  // None once a step was refused.
  datatype Progress = Progress(db: Db, pending: seq<Message>)

  function Exec(db: Db, script: seq<Op>, frequency: nat, now: Time): Option<Progress> {
    if script == [] then Some(Progress(db, []))
    else
      match Exec(db, script[..|script| - 1], frequency, now)
      case None => None
      case Some(p) =>
        var op := script[|script| - 1];
        if !Allowed(p.db, op, frequency, now) then None
        else Some(Progress(Effect(p.db, op, now), if op.ClearAll? then p.pending else p.pending + [MessageOf(op)]))
  }

  // ---- after the commit ----------------------------------------------------------------------

  predicate HasRow(db: Db, it: Item) {
    it.key in db.rows && db.rows[it.key].hash == it.hash
  }

  predicate HasColumn(db: Db, it: Item) {
    it.key in db.columns && db.columns[it.key] == it.hash
  }

  // Taking back a token is two statements: the copy on the user, with the send time, and then the row.
  datatype Statement = Blank(it: Item) | Drop(it: Item)

  /** Each clears only that token: a newer one is left alone. */
  function Execute(db: Db, st: Statement): Db {
    match st
    case Blank(it) =>
      if HasColumn(db, it)
      then db.(columns := db.columns - {it.key}, sent := db.sent - {(it.key.user, SentAt(it.key.kind))})
      else db
    case Drop(it) => if HasRow(db, it) then db.(rows := db.rows - {it.key}) else db
  }

  function Undoing(m: Message): seq<Statement> {
    if m == [] then [] else [Blank(m[0]), Drop(m[0])] + Undoing(m[1..])
  }

  /** The statements that take back the messages from the `n`-th on. */
  function UndoingFrom(pending: seq<Message>, n: nat): seq<Statement>
    decreases |pending| - n
  {
    if n >= |pending| then [] else Undoing(pending[n]) + UndoingFrom(pending, n + 1)
  }

  // What other requests do to the tables before the n-th step.
  type World = (nat, Db) -> Db

  // How many of the n-th message's parts go out; it succeeds when all do.
  type Postman = nat -> nat

  predicate Sent(post: Postman, pending: seq<Message>, n: nat)
    requires n < |pending|
  {
    post(n) >= |pending[n]|
  }

  /** The statements one by one, other requests coming in before each and after the last. */
  function Undo(db: Db, todo: seq<Statement>, n: nat, w: World): Db
    decreases |todo|
  {
    if todo == [] then w(n, db) else Undo(Execute(w(n, db), todo[0]), todo[1..], n + 1, w)
  }

  /** The tables afterwards, and how many messages succeeded. */
  function DeliverFrom(db: Db, pending: seq<Message>, n: nat, post: Postman, w: World): (Db, nat)
    requires n <= |pending|
    decreases |pending| - n
  {
    if n == |pending| then (db, n)
    else if Sent(post, pending, n) then DeliverFrom(w(n, db), pending, n + 1, post, w)
    else (Undo(db, UndoingFrom(pending, n), n, w), n)
  }

  datatype Answer = Fine | Error | DeliveryFailed

  // `sent` messages of `pending` succeeded.
  datatype Report = Report(db: Db, answer: Answer, pending: seq<Message>, sent: nat)

  function InTx(db: Db, script: seq<Op>, ending: Ending, frequency: nat, now: Time, post: Postman, w: World): Report {
    match Exec(db, script, frequency, now)
    case None => Report(db, Error, [], 0)
    case Some(p) =>
      if ending == PlainError then Report(db, Error, [], 0)
      else
        var (after, sent) := DeliverFrom(p.db, p.pending, 0, post, w);
        var answer := if sent < |p.pending| then DeliveryFailed else if ending == CommitError then Error else Fine;
        Report(after, answer, p.pending, sent)
  }

  // ---- properties -------------------------------------------------------------------------------

  predicate Stored(db: Db, it: Item) {
    HasRow(db, it) || HasColumn(db, it)
  }

  function Carried(pending: seq<Message>): set<Item> {
    set n, it | 0 <= n < |pending| && it in pending[n] :: it
  }

  /** No other request writes this token, as a row or on the user. */
  ghost predicate NeverWrites(w: World, it: Item) {
    forall n, db :: (HasRow(w(n, db), it) ==> HasRow(db, it)) && (HasColumn(w(n, db), it) ==> HasColumn(db, it))
  }

  /** Nor removes it. */
  ghost predicate NeverRemoves(w: World, it: Item) {
    forall n, db :: (HasRow(db, it) ==> HasRow(w(n, db), it)) && (HasColumn(db, it) ==> HasColumn(w(n, db), it))
  }

  ghost predicate LeavesAlone(w: World, it: Item) {
    NeverWrites(w, it) && NeverRemoves(w, it)
  }

  /** Token values are random: no other request ever writes one of these. */
  ghost predicate Foreign(w: World, issued: set<Item>) {
    forall it :: it in issued ==> NeverWrites(w, it)
  }

  /** What is stored of the issued tokens is among `allowed`. */
  predicate Only(db: Db, issued: set<Item>, allowed: set<Item>) {
    forall it :: it in issued && Stored(db, it) ==> it in allowed
  }

  lemma {:induction false} ExecuteExactly(db: Db, st: Statement, it: Item)
    ensures HasRow(Execute(db, st), it) <==> HasRow(db, it) && st != Drop(it)
    ensures HasColumn(Execute(db, st), it) <==> HasColumn(db, it) && st != Blank(it)
  {}

  /** What the statements leave of a token that nobody else writes, or nobody else removes. */
  lemma {:induction false} UndoExactly(db: Db, todo: seq<Statement>, n: nat, w: World, it: Item)
    ensures NeverWrites(w, it) ==>
              && (HasRow(Undo(db, todo, n, w), it) ==> HasRow(db, it) && Drop(it) !in todo)
              && (HasColumn(Undo(db, todo, n, w), it) ==> HasColumn(db, it) && Blank(it) !in todo)
    ensures NeverRemoves(w, it) ==>
              && (HasRow(db, it) && Drop(it) !in todo ==> HasRow(Undo(db, todo, n, w), it))
              && (HasColumn(db, it) && Blank(it) !in todo ==> HasColumn(Undo(db, todo, n, w), it))
    decreases |todo|
  {
    hide Execute, HasRow, HasColumn;
    if todo != [] {
      ExecuteExactly(w(n, db), todo[0], it);
      UndoExactly(Execute(w(n, db), todo[0]), todo[1..], n + 1, w, it);
    }
  }

  lemma {:induction false} UndoingNames(m: Message, it: Item)
    ensures Blank(it) in Undoing(m) <==> it in m
    ensures Drop(it) in Undoing(m) <==> it in m
    ensures |Undoing(m)| == 2 * |m|
  {
    if m != [] { UndoingNames(m[1..], it); }
  }

  lemma {:induction false} UndoingFromNames(pending: seq<Message>, n: nat, it: Item)
    requires n <= |pending|
    ensures Blank(it) in UndoingFrom(pending, n) <==> it in Carried(pending[n..])
    ensures Drop(it) in UndoingFrom(pending, n) <==> it in Carried(pending[n..])
    decreases |pending| - n
  {
    if n < |pending| {
      UndoingNames(pending[n], it);
      UndoingFromNames(pending, n + 1, it);
      CarriedHead(pending, n);
    } else {
      assert Carried(pending[n..]) == {};
    }
  }

  /** Discarding touches nothing but the tokens it names: a newer row that other requests leave there stays. */
  lemma {:induction false} DiscardSparesOthers(db: Db, todo: seq<Statement>, n: nat, w: World, key: Key)
    requires key in db.rows && Drop(Item(key, db.rows[key].hash)) !in todo
    requires forall i: nat, d: Db :: key in d.rows && d.rows[key] == db.rows[key] ==>
               key in w(i, d).rows && w(i, d).rows[key] == db.rows[key]
    ensures key in Undo(db, todo, n, w).rows && Undo(db, todo, n, w).rows[key] == db.rows[key]
    decreases |todo|
  {
    if todo != [] { DiscardSparesOthers(Execute(w(n, db), todo[0]), todo[1..], n + 1, w, key); }
  }

  /** Nor the send time of a column whose tokens it does not name, or no longer finds. */
  lemma {:induction false} DiscardSparesColumns(
      db: Db, todo: seq<Statement>, n: nat, w: World, user: int, column: SentColumn)
    requires (user, column) in db.sent
    requires forall it :: Blank(it) in todo && it.key.user == user && SentAt(it.key.kind) == column ==>
               !HasColumn(db, it) && NeverWrites(w, it)
    requires forall i: nat, d: Db :: (user, column) in d.sent && d.sent[(user, column)] == db.sent[(user, column)] ==>
               (user, column) in w(i, d).sent && w(i, d).sent[(user, column)] == db.sent[(user, column)]
    ensures (user, column) in Undo(db, todo, n, w).sent
    ensures Undo(db, todo, n, w).sent[(user, column)] == db.sent[(user, column)]
    decreases |todo|
  {
    if todo != [] {
      var st, db1 := todo[0], w(n, db);
      assert st in todo;
      hide HasRow, HasColumn;
      forall it | Blank(it) in todo[1..] && it.key.user == user && SentAt(it.key.kind) == column
        ensures !HasColumn(Execute(db1, st), it) && NeverWrites(w, it)
      {
        assert Blank(it) in todo;
        ExecuteExactly(db1, st, it);
      }
      DiscardSparesColumns(Execute(db1, st), todo[1..], n + 1, w, user, column);
    }
  }

  lemma {:induction false} CarriedHead(pending: seq<Message>, n: nat)
    requires n < |pending|
    ensures forall it :: it in Carried(pending[n..]) <==> it in pending[n] || it in Carried(pending[n + 1..])
  {
    var a, b := pending[n..], pending[n + 1..];
    forall it ensures it in Carried(a) <==> it in pending[n] || it in Carried(b) {
      if it in Carried(a) {
        var i :| 0 <= i < |a| && it in a[i];
        if i > 0 { assert it in b[i - 1]; }
      }
      if it in Carried(b) {
        var i :| 0 <= i < |b| && it in b[i];
        assert it in a[i + 1];
      }
      if it in pending[n] { assert it in a[0]; }
    }
  }

  /** The messages sent are those before the first failure, and what is left of a token depends on the others. */
  lemma {:induction false} DeliverExactly(db: Db, pending: seq<Message>, n: nat, post: Postman, w: World, it: Item)
    requires n <= |pending|
    ensures n <= DeliverFrom(db, pending, n, post, w).1 <= |pending|
    ensures var (after, sent) := DeliverFrom(db, pending, n, post, w);
            var gone := it in Carried(pending[sent..]);
            && (NeverWrites(w, it) ==>
                  && (HasRow(after, it) ==> HasRow(db, it) && !gone)
                  && (HasColumn(after, it) ==> HasColumn(db, it) && !gone))
            && (NeverRemoves(w, it) ==>
                  && (HasRow(db, it) && !gone ==> HasRow(after, it))
                  && (HasColumn(db, it) && !gone ==> HasColumn(after, it)))
    decreases |pending| - n
  {
    hide HasRow, HasColumn, Undo, UndoingFrom;
    if n == |pending| {
      assert Carried(pending[n..]) == {};
    } else if Sent(post, pending, n) {
      DeliverExactly(w(n, db), pending, n + 1, post, w, it);
    } else {
      UndoingFromNames(pending, n, it);
      UndoExactly(db, UndoingFrom(pending, n), n, w, it);
    }
  }

  lemma {:induction false} FirstFailed(db: Db, pending: seq<Message>, n: nat, post: Postman, w: World)
    requires n <= |pending|
    ensures var sent := DeliverFrom(db, pending, n, post, w).1;
            && n <= sent <= |pending| && (forall i :: n <= i < sent ==> Sent(post, pending, i))
            && (sent < |pending| ==> !Sent(post, pending, sent))
    decreases |pending| - n
  {
    if n < |pending| && Sent(post, pending, n) { FirstFailed(w(n, db), pending, n + 1, post, w); }
  }

  lemma {:induction false} CarriedSplit(pending: seq<Message>, n: nat, it: Item)
    requires n <= |pending|
    ensures it in Carried(pending) <==> it in Carried(pending[..n]) || it in Carried(pending[n..])
  {
    if it in Carried(pending) {
      var i :| 0 <= i < |pending| && it in pending[i];
      if i < n { assert it in pending[..n][i]; } else { assert it in pending[n..][i - n]; }
    }
    if it in Carried(pending[..n]) {
      var i :| 0 <= i < n && it in pending[..n][i];
      assert it in pending[i];
    }
    if it in Carried(pending[n..]) {
      var i :| 0 <= i < |pending[n..]| && it in pending[n..][i];
      assert it in pending[n + i];
    }
  }

  /** The tokens a script issues. */
  function Issued(script: seq<Op>): set<Item> {
    set n, it | 0 <= n < |script| && it in MessageOf(script[n]) :: it
  }

  lemma {:induction false} IssueAllStores(db: Db, m: Message, now: Time)
    ensures forall it :: Stored(IssueAll(db, m, now), it) ==> Stored(db, it) || it in m
    decreases |m|
  {
    if m != [] {
      IssueAllStores(db, m[..|m| - 1], now);
      assert m == m[..|m| - 1] + [m[|m| - 1]];
    }
  }

  lemma {:induction false} EffectStores(db: Db, op: Op, now: Time)
    ensures forall it :: Stored(Effect(db, op, now), it) ==> Stored(db, it) || it in MessageOf(op)
  {
    if op.ClearAll? {
      FewerRowsStore(db, Effect(db, op, now));
    } else {
      var start := if op.SendChange? then db.(columns := db.columns - {Key(op.user, ChangeCurrent)}) else db;
      FewerRowsStore(db, start);
      var after := IssueAll(start, MessageOf(op), now);
      IssueAllStores(start, MessageOf(op), now);
      forall it | Stored(after, it) ensures Stored(db, it) || it in MessageOf(op) {
        assert Stored(start, it) || it in MessageOf(op);
      }
      assert Effect(db, op, now) == after;
    }
  }

  lemma {:induction false} FewerRowsStore(db: Db, fewer: Db)
    requires forall k :: k in fewer.rows ==> k in db.rows && fewer.rows[k] == db.rows[k]
    requires forall k :: k in fewer.columns ==> k in db.columns && fewer.columns[k] == db.columns[k]
    ensures forall it :: Stored(fewer, it) ==> Stored(db, it)
  {}

  lemma {:induction false} ExecQueuesAll(db: Db, script: seq<Op>, frequency: nat, now: Time, issued: set<Item>)
    requires forall it :: it in issued ==> !Stored(db, it)
    requires Exec(db, script, frequency, now).Some?
    ensures var p := Exec(db, script, frequency, now).value; Only(p.db, issued, Carried(p.pending))
  {
    hide Effect, Allowed, Stored, Carried;
    if script != [] {
      var before, op := script[..|script| - 1], script[|script| - 1];
      ExecQueuesAll(db, before, frequency, now, issued);
      var p := Exec(db, before, frequency, now).value;
      EffectStores(p.db, op, now);
      if !op.ClearAll? { CarriedAppend(p.pending, MessageOf(op)); }
    }
  }

  lemma {:induction false} CarriedAppend(pending: seq<Message>, m: Message)
    ensures forall it :: it in Carried(pending) || it in m ==> it in Carried(pending + [m])
  {
    var all := pending + [m];
    forall it | it in Carried(pending) ensures it in Carried(all) {
      var i :| 0 <= i < |pending| && it in pending[i];
      assert it in all[i];
    }
    forall it | it in m ensures it in Carried(all) {
      assert it in all[|pending|];
    }
  }

  /** After the transaction returns, in whatever way other requests interleave with the sending, every one-time
      token issued in it that is still stored was part of a message that was sent; the messages sent are exactly
      those before the first failure. */
  lemma {:induction false} StoredTokensWereSent(db: Db, script: seq<Op>, ending: Ending, frequency: nat, now: Time,
      post: Postman,
      w: World)
    requires forall it :: it in Issued(script) ==> !Stored(db, it)
    requires Foreign(w, Issued(script))
    ensures var r := InTx(db, script, ending, frequency, now, post, w);
            && r.sent <= |r.pending|
            && (forall it :: it in Issued(script) && Stored(r.db, it) ==> it in Carried(r.pending[..r.sent]))
            && (forall i :: 0 <= i < r.sent ==> Sent(post, r.pending, i))
            && (r.sent < |r.pending| ==> !Sent(post, r.pending, r.sent) && r.answer == DeliveryFailed)
  {
    var p := Exec(db, script, frequency, now);
    if p.Some? && ending != PlainError {
      ExecQueuesAll(db, script, frequency, now, Issued(script));
      var r := InTx(db, script, ending, frequency, now, post, w);
      FirstFailed(p.value.db, p.value.pending, 0, post, w);
      hide Stored, Carried, NeverWrites, DeliverFrom, Exec;
      forall it | it in Issued(script) && Stored(r.db, it) ensures it in Carried(r.pending[..r.sent]) {
        DeliverExactly(p.value.db, p.value.pending, 0, post, w, it);
        OrStored(r.db, p.value.db, it);
        CarriedSplit(r.pending, r.sent, it);
      }
    }
  }

  lemma {:induction false} OrStored(after: Db, before: Db, it: Item)
    requires HasRow(after, it) ==> HasRow(before, it)
    requires HasColumn(after, it) ==> HasColumn(before, it)
    ensures Stored(after, it) ==> Stored(before, it) && (HasRow(after, it) || HasColumn(after, it))
  {}

  /** A plain error, or a step refused for its frequency, changes nothing and sends nothing; an error that commits
      keeps everything written, exactly as success does. */
  lemma {:induction false} ErrorsRollBackOrCommit(db: Db, script: seq<Op>, frequency: nat, now: Time, post: Postman,
      w: World)
    ensures InTx(db, script, PlainError, frequency, now, post, w) == Report(db, Error, [], 0)
    ensures var committed := InTx(db, script, CommitError, frequency, now, post, w);
            var fine := InTx(db, script, Success, frequency, now, post, w);
            committed.db == fine.db && committed.pending == fine.pending && committed.sent == fine.sent
    ensures Exec(db, script, frequency, now).None? ==> InTx(db, script, Success, frequency, now, post, w).db == db
  {}

  // ---- asking again ------------------------------------------------------------------------------

  /** The stored token of a key a message names was issued with that message or a later one. */
  predicate LatestLast(db: Db, pending: seq<Message>) {
    forall n, it :: 0 <= n < |pending| && it in pending[n] && it.key in db.rows ==>
      Item(it.key, db.rows[it.key].hash) in Carried(pending[n..])
  }

  lemma {:induction false} IssueAllRows(db: Db, m: Message, now: Time)
    ensures forall k :: k in IssueAll(db, m, now).rows ==>
              Item(k, IssueAll(db, m, now).rows[k].hash) in m
                  || (k in db.rows && IssueAll(db, m, now).rows[k] == db.rows[k])
    ensures forall it :: it in m ==>
              it.key in IssueAll(db, m, now).rows && Item(it.key, IssueAll(db, m, now).rows[it.key].hash) in m
    decreases |m|
  {
    if m != [] {
      IssueAllRows(db, m[..|m| - 1], now);
      assert m == m[..|m| - 1] + [m[|m| - 1]];
    }
  }

  lemma {:induction false} EffectRows(db: Db, op: Op, now: Time)
    ensures var rows := Effect(db, op, now).rows;
            && (forall k :: k in rows ==>
                  Item(k, rows[k].hash) in MessageOf(op) || (k in db.rows && rows[k] == db.rows[k]))
            && (forall it :: it in MessageOf(op) ==> it.key in rows && Item(it.key, rows[it.key].hash) in MessageOf(op))
  {
    match op
    case SendLink(_, _, _, _) => IssueAllRows(db, MessageOf(op), now);
    case SendChange(u, _, _) => IssueAllRows(db.(columns := db.columns - {Key(u, ChangeCurrent)}), MessageOf(op), now);
    case ClearAll(_) =>
  }

  lemma {:induction false} ExecLatestLast(db: Db, script: seq<Op>, frequency: nat, now: Time)
    requires Exec(db, script, frequency, now).Some?
    ensures var p := Exec(db, script, frequency, now).value; LatestLast(p.db, p.pending)
  {
    hide Effect, Allowed, Carried;
    if script != [] {
      var before, op := script[..|script| - 1], script[|script| - 1];
      ExecLatestLast(db, before, frequency, now);
      var p := Exec(db, before, frequency, now).value;
      var db' := Effect(p.db, op, now);
      EffectRows(p.db, op, now);
      var pending' := if op.ClearAll? then p.pending else p.pending + [MessageOf(op)];
      forall n, it: Item | 0 <= n < |pending'| && it in pending'[n] && it.key in db'.rows
        ensures Item(it.key, db'.rows[it.key].hash) in Carried(pending'[n..])
      {
        if op.ClearAll? {
          assert it in p.pending[n];
        } else if n == |p.pending| {
          assert pending'[n..] == [] + [MessageOf(op)];
          CarriedAppend([], MessageOf(op));
        } else {
          assert pending'[n..] == p.pending[n..] + [MessageOf(op)];
          CarriedAppend(p.pending[n..], MessageOf(op));
          assert it in p.pending[n];
        }
      }
    }
  }

  // ---- what survives ---------------------------------------------------------------------------

  predicate AllSent(post: Postman, pending: seq<Message>, n: nat)
    requires n <= |pending|
  {
    forall i :: 0 <= i < n ==> Sent(post, pending, i)
  }

  /** A token stored at the commit, and left alone by other requests, is still stored afterwards exactly if, up to
      each message that carries it, every one was sent. */
  lemma {:induction false} SurvivesExactlyIf(
      db: Db, script: seq<Op>, ending: Ending, frequency: nat, now: Time, post: Postman, w: World, it: Item)
    requires ending != PlainError && Exec(db, script, frequency, now).Some? && LeavesAlone(w, it)
    requires Stored(Exec(db, script, frequency, now).value.db, it)
    ensures var pending := Exec(db, script, frequency, now).value.pending;
            Stored(InTx(db, script, ending, frequency, now, post, w).db, it) <==>
            forall n :: 0 <= n < |pending| && it in pending[n] ==> AllSent(post, pending, n + 1)
  {
    var p := Exec(db, script, frequency, now).value;
    var sent := DeliverFrom(p.db, p.pending, 0, post, w).1;
    DeliverExactly(p.db, p.pending, 0, post, w, it);
    FirstFailed(p.db, p.pending, 0, post, w);
    if it in Carried(p.pending[sent..]) {
      var i :| 0 <= i < |p.pending[sent..]| && it in p.pending[sent..][i];
      assert it in p.pending[sent + i] && !Sent(post, p.pending, sent);
    }
    forall n | 0 <= n < |p.pending| && it in p.pending[n] && sent <= n ensures it in Carried(p.pending[sent..]) {
      assert it in p.pending[sent..][n - sent];
    }
  }

  /** So of an email-change pair each half survives exactly if both were delivered: the one that went out is taken
      back exactly when its partner failed. */
  lemma {:induction false} PairSharesItsFate(
      db: Db, u: int, hashNew: Hash, hashCurrent: Hash, frequency: nat, now: Time, post: Postman, w: World, half: Item)
    requires FrequencyAllows(db, Key(u, ChangeNew), frequency, now)
    requires half in MessageOf(SendChange(u, hashNew, Some(hashCurrent))) && LeavesAlone(w, half)
    ensures var r := InTx(db, [SendChange(u, hashNew, Some(hashCurrent))], Success, frequency, now, post, w);
            Stored(r.db, half) <==> post(0) >= 2
  {
    var op := SendChange(u, hashNew, Some(hashCurrent));
    var m := MessageOf(op);
    OneOp(db, op, frequency, now);
    PairStored(db, op, now);
    SurvivesExactlyIf(db, [op], Success, frequency, now, post, w, half);
    assert |m| == 2;
    var pending := Exec(db, [op], frequency, now).value.pending;
    assert pending == [m] && half in pending[0];
    assert AllSent(post, pending, 1) <==> Sent(post, pending, 0);
  }

  lemma {:induction false} OneOp(db: Db, op: Op, frequency: nat, now: Time)
    requires !op.ClearAll? && Allowed(db, op, frequency, now)
    ensures Exec(db, [op], frequency, now) == Some(Progress(Effect(db, op, now), [MessageOf(op)]))
  {
    hide Effect, Allowed, MessageOf;
    var script := [op];
    assert script[..|script| - 1] == [] && script[|script| - 1] == op;
    assert Exec(db, script[..|script| - 1], frequency, now) == Some(Progress(db, []));
    var none: seq<Message> := [];
    assert none + [MessageOf(op)] == [MessageOf(op)];
  }

  lemma {:induction false} PairStored(db: Db, op: Op, now: Time)
    requires op.SendChange? && op.hashCurrent.Some?
    ensures forall it :: it in MessageOf(op) ==> Stored(Effect(db, op, now), it)
  {
    var start := db.(columns := db.columns - {Key(op.user, ChangeCurrent)});
    IssuePair(start, MessageOf(op), now);
  }

  /** With nobody else around, half a pair delivered is half a pair taken back. */
  lemma {:induction false} DeliveredHalfTakenBack(u: int, now: Time)
    ensures var r := InTx(Db(map[], map[], map[]), [SendChange(u, 1, Some(2))], Success, 0, now, n => 1, (n, db) => db);
            !Stored(r.db, Item(Key(u, ChangeNew), 1))
  {
    var half := Item(Key(u, ChangeNew), 1);
    assert half == MessageOf(SendChange(u, 1, Some(2)))[0];
    PairSharesItsFate(Db(map[], map[], map[]), u, 1, 2, 0, now, n => 1, (n, db) => db, half);
  }

  // ---- newer tokens -------------------------------------------------------------------------------

  predicate HasBoth(db: Db, it: Item) {
    HasRow(db, it) && HasColumn(db, it)
  }

  /** Another request stores the token before step `k`, and it stays there as far as other requests go. */
  ghost predicate StoresAt(w: World, it: Item, k: nat) {
    && (forall db :: HasBoth(w(k, db), it))
    && (forall n, db :: n > k && HasBoth(db, it) ==> HasBoth(w(n, db), it))
  }

  lemma {:induction false} UndoSpares(db: Db, todo: seq<Statement>, n: nat, w: World, it: Item, k: nat)
    requires StoresAt(w, it, k) && (n > k ==> HasBoth(db, it)) && k <= n + |todo|
    requires Blank(it) !in todo && Drop(it) !in todo
    ensures HasBoth(Undo(db, todo, n, w), it)
    decreases |todo|
  {
    if todo != [] {
      var db1 := w(n, db);
      assert n >= k ==> HasBoth(db1, it);
      ExecuteExactly(db1, todo[0], it);
      assert todo[0] in todo;
      UndoSpares(Execute(db1, todo[0]), todo[1..], n + 1, w, it, k);
    }
  }

  /** How often other requests come in from step `n` on, counted with the steps before: once before each message sent
      and each statement of the discard, and once after that. */
  function Steps(pending: seq<Message>, n: nat, post: Postman): nat
    requires n <= |pending|
    decreases |pending| - n
  {
    if n == |pending| then n
    else if Sent(post, pending, n) then Steps(pending, n + 1, post)
    else n + |UndoingFrom(pending, n)| + 1
  }

  lemma {:induction false} DeliverSpares(
      db: Db, pending: seq<Message>, n: nat, post: Postman, w: World, it: Item, k: nat)
    requires n <= |pending| && StoresAt(w, it, k) && (n > k ==> HasBoth(db, it)) && k < Steps(pending, n, post)
    requires it !in Carried(pending[n..])
    ensures HasBoth(DeliverFrom(db, pending, n, post, w).0, it)
    decreases |pending| - n
  {
    hide HasBoth;
    if n < |pending| {
      CarriedHead(pending, n);
      if Sent(post, pending, n) {
        DeliverSpares(w(n, db), pending, n + 1, post, w, it, k);
      } else {
        UndoingFromNames(pending, n, it);
        UndoSpares(db, UndoingFrom(pending, n), n, w, it, k);
      }
    }
  }

  /** A newer token that another request stores at any step, while the messages go out, between the statements that
      take the failed ones back or after the last of them, is never cleared, whatever fails. */
  lemma {:induction false} NewerTokenStays(
      db: Db, script: seq<Op>, ending: Ending, frequency: nat, now: Time, post: Postman, w: World, it: Item, k: nat)
    requires ending != PlainError && Exec(db, script, frequency, now).Some?
    requires var pending := Exec(db, script, frequency, now).value.pending;
             k < Steps(pending, 0, post) && StoresAt(w, it, k) && it !in Carried(pending)
    ensures var r := InTx(db, script, ending, frequency, now, post, w); HasRow(r.db, it) && HasColumn(r.db, it)
  {
    var p := Exec(db, script, frequency, now).value;
    assert p.pending[0..] == p.pending;
    DeliverSpares(p.db, p.pending, 0, post, w, it, k);
  }

  /** One step for each message sent; after a failure two for every token from there on, and a last one. */
  lemma {:induction false} StepsCount(db: Db, pending: seq<Message>, n: nat, post: Postman, w: World)
    requires n <= |pending|
    ensures var sent := DeliverFrom(db, pending, n, post, w).1;
            Steps(pending, n, post) == if sent == |pending| then sent else sent + 2 * Tokens(pending, sent) + 1
    decreases |pending| - n
  {
    if n < |pending| {
      if Sent(post, pending, n) {
        StepsCount(w(n, db), pending, n + 1, post, w);
      } else {
        UndoingFromLength(pending, n);
      }
    }
  }

  function Tokens(pending: seq<Message>, n: nat): nat
    decreases |pending| - n
  {
    if n >= |pending| then 0 else |pending[n]| + Tokens(pending, n + 1)
  }

  lemma {:induction false} UndoingFromLength(pending: seq<Message>, n: nat)
    ensures |UndoingFrom(pending, n)| == 2 * Tokens(pending, n)
    decreases |pending| - n
  {
    if n < |pending| {
      UndoingNames(pending[n], Item(Key(0, ChangeNew), 0));
      UndoingFromLength(pending, n + 1);
    }
  }

  // ---- asking again, after a failure --------------------------------------------------------------

  /** No other request issues a token for this key. */
  ghost predicate IssuesNone(w: World, key: Key) {
    forall n, db :: key in w(n, db).rows ==> key in db.rows && w(n, db).rows[key] == db.rows[key]
  }

  /** What is left at a key was there before, and is not among the tokens taken back. */
  ghost predicate LeftOver(db: Db, after: Db, key: Key, gone: set<Item>) {
    key in after.rows ==> key in db.rows && after.rows[key] == db.rows[key] && Item(key, db.rows[key].hash) !in gone
  }

  lemma {:induction false} UndoLeaves(db: Db, todo: seq<Statement>, n: nat, w: World, key: Key)
    requires IssuesNone(w, key)
    ensures key in Undo(db, todo, n, w).rows ==>
              && key in db.rows && Undo(db, todo, n, w).rows[key] == db.rows[key]
              && Drop(Item(key, db.rows[key].hash)) !in todo
    decreases |todo|
  {
    if todo != [] {
      var db1 := w(n, db);
      UndoLeaves(Execute(db1, todo[0]), todo[1..], n + 1, w, key);
    }
  }

  lemma {:induction false} DeliverLeaves(db: Db, pending: seq<Message>, n: nat, post: Postman, w: World, key: Key)
    requires n <= |pending| && IssuesNone(w, key)
    ensures var (after, sent) := DeliverFrom(db, pending, n, post, w);
            sent <= |pending| && LeftOver(db, after, key, Carried(pending[sent..]))
    decreases |pending| - n
  {
    if n == |pending| {
      assert Carried(pending[n..]) == {};
    } else if Sent(post, pending, n) {
      DeliverLeaves(w(n, db), pending, n + 1, post, w, key);
    } else {
      UndoLeaves(db, UndoingFrom(pending, n), n, w, key);
      if key in db.rows { UndoingFromNames(pending, n, Item(key, db.rows[key].hash)); }
    }
  }

  /** When a send fails, the users of it and of every later message can ask again at once, unless another request
      has meanwhile issued them a token. */
  lemma {:induction false} CanAskAgain(
      db: Db, script: seq<Op>, ending: Ending, frequency: nat, now: Time, post: Postman, w: World,
      n: nat, it: Item, later: Time)
    requires ending != PlainError && Exec(db, script, frequency, now).Some? && IssuesNone(w, it.key)
    requires var r := InTx(db, script, ending, frequency, now, post, w); r.sent <= n < |r.pending| && it in r.pending[n]
    ensures FrequencyAllows(InTx(db, script, ending, frequency, now, post, w).db, it.key, frequency, later)
  {
    var p := Exec(db, script, frequency, now).value;
    var r := InTx(db, script, ending, frequency, now, post, w);
    DeliverLeaves(p.db, p.pending, 0, post, w, it.key);
    ExecLatestLast(db, script, frequency, now);
    if it.key in r.db.rows {
      var current := Item(it.key, p.db.rows[it.key].hash);
      assert current in Carried(p.pending[n..]);
      CarriedLater(p.pending, r.sent, n, current);
      assert false;
    }
  }

  lemma {:induction false} CarriedLater(pending: seq<Message>, a: nat, b: nat, it: Item)
    requires a <= b <= |pending| && it in Carried(pending[b..])
    ensures it in Carried(pending[a..])
  {
    var i :| 0 <= i < |pending[b..]| && it in pending[b..][i];
    assert pending[a..][i + b - a] == pending[b..][i];
  }

  // ---- the handlers as they run --------------------------------------------------------------

  class Mailroom {
    var db: Db

    constructor (start: Db)
      ensures db == start
    {
      db := start;
    }

    /** The body of the transaction: each step checks the frequency, writes, and queues its message. */
    method Perform(script: seq<Op>, frequency: nat, now: Time) returns (ok: bool, pending: seq<Message>)
      modifies this
      ensures match Exec(old(db), script, frequency, now)
              case None => !ok
              case Some(p) => ok && db == p.db && pending == p.pending
    {
      pending := [];
      for n := 0 to |script|
        invariant Exec(old(db), script[..n], frequency, now) == Some(Progress(db, pending))
      {
        var op := script[n];
        assert script[..n + 1][..n] == script[..n];
        if !Allowed(db, op, frequency, now) {
          RefusedForGood(old(db), script, n + 1, frequency, now);
          return false, pending;
        }
        match op {
          case SendLink(u, kind, hash, _) =>
            Store(Item(Key(u, kind), hash), now);
            pending := pending + [MessageOf(op)];
          case SendChange(u, hashNew, hashCurrent) =>
            ghost var blanked := db.(columns := db.columns - {Key(u, ChangeCurrent)});
            db := db.(columns := db.columns - {Key(u, ChangeCurrent)});
            Store(Item(Key(u, ChangeNew), hashNew), now);
            if hashCurrent.Some? {
              Store(Item(Key(u, ChangeCurrent), hashCurrent.value), now);
            }
            IssuePair(blanked, MessageOf(op), now);
            pending := pending + [MessageOf(op)];
          case ClearAll(u) =>
            db := db.(rows := map k | k in db.rows && k.user != u :: db.rows[k]);
        }
      }
      assert script[..|script|] == script;
      return true, pending;
    }

    method Store(it: Item, now: Time)
      modifies this
      ensures db == Issue(old(db), it, now)
      ensures db == IssueAll(old(db), [it], now)
    {
      assert [it][..0] == [];
      db := db.(rows := db.rows[it.key := Row(it.hash, now)], columns := db.columns[it.key := it.hash],
                sent := db.sent[(it.key.user, SentAt(it.key.kind)) := now]);
    }

    /** Sends in order; from the first failure on, everything is taken back. */
    method DeliverPending(pending: seq<Message>, post: Postman, w: World) returns (sent: nat)
      modifies this
      ensures (db, sent) == DeliverFrom(old(db), pending, 0, post, w)
    {
      for n := 0 to |pending|
        invariant DeliverFrom(old(db), pending, 0, post, w) == DeliverFrom(db, pending, n, post, w)
      {
        if Sent(post, pending, n) {
          db := w(n, db);
          continue;
        }
        ghost var failed := db;
        var step: nat := n;
        for i := n to |pending|
          invariant Undo(failed, UndoingFrom(pending, n), n, w) == Undo(db, UndoingFrom(pending, i), step, w)
        {
          step := TakeBack(pending[i], step, w, UndoingFrom(pending, i + 1));
        }
        db := w(step, db);
        return n;
      }
      return |pending|;
    }

    /** The discard of one message, two statements a token; `rest` is what is taken back after it. */
    method TakeBack(m: Message, step: nat, w: World, ghost rest: seq<Statement>) returns (next: nat)
      modifies this
      ensures Undo(old(db), Undoing(m) + rest, step, w) == Undo(db, rest, next, w)
      ensures next == step + 2 * |m|
    {
      next := step;
      for i := 0 to |m|
        invariant next == step + 2 * i
        invariant Undo(old(db), Undoing(m) + rest, step, w) == Undo(db, Undoing(m[i..]) + rest, next, w)
      {
        var it := m[i];
        ghost var todo := Undoing(m[i + 1..]) + rest;
        assert m[i..][0] == it && m[i..][1..] == m[i + 1..];
        assert Undoing(m[i..]) + rest == [Blank(it), Drop(it)] + todo;
        TwoStatements(db, it, todo, next, w);
        db := w(next, db);
        if it.key in db.columns && db.columns[it.key] == it.hash {
          db := db.(columns := db.columns - {it.key}, sent := db.sent - {(it.key.user, SentAt(it.key.kind))});
        }
        db := w(next + 1, db);
        if it.key in db.rows && db.rows[it.key].hash == it.hash {
          db := db.(rows := db.rows - {it.key});
        }
        next := next + 2;
      }
      assert m[|m|..] == [] && Undoing([]) + rest == rest;
    }

    method InTransaction(script: seq<Op>, ending: Ending, frequency: nat, now: Time, post: Postman, w: World)
      returns (answer: Answer, sent: nat)
      modifies this
      ensures var r := InTx(old(db), script, ending, frequency, now, post, w);
              db == r.db && answer == r.answer && sent == r.sent
    {
      var before := db;
      var ok, pending := Perform(script, frequency, now);
      if !ok || ending == PlainError {
        db := before;
        return Error, 0;
      }
      sent := DeliverPending(pending, post, w);
      DeliveredAtMost(Exec(before, script, frequency, now).value.db, pending, 0, post, w);
      return (if sent < |pending| then DeliveryFailed else if ending == CommitError then Error else Fine), sent;
    }
  }

  lemma {:induction false} TwoStatements(db: Db, it: Item, todo: seq<Statement>, n: nat, w: World)
    ensures Undo(db, [Blank(it), Drop(it)] + todo, n, w) ==
            Undo(Execute(w(n + 1, Execute(w(n, db), Blank(it))), Drop(it)), todo, n + 2, w)
  {
    var all := [Blank(it), Drop(it)] + todo;
    assert all[1..] == [Drop(it)] + todo && all[1..][1..] == todo;
    var db1 := Execute(w(n, db), Blank(it));
    assert Undo(db, all, n, w) == Undo(db1, all[1..], n + 1, w);
  }

  lemma {:induction false} DeliveredAtMost(db: Db, pending: seq<Message>, n: nat, post: Postman, w: World)
    requires n <= |pending|
    ensures DeliverFrom(db, pending, n, post, w).1 <= |pending|
    decreases |pending| - n
  {
    if n < |pending| && Sent(post, pending, n) { DeliveredAtMost(w(n, db), pending, n + 1, post, w); }
  }

  lemma {:induction false} RefusedForGood(db: Db, script: seq<Op>, n: nat, frequency: nat, now: Time)
    requires n <= |script| && Exec(db, script[..n], frequency, now).None?
    ensures Exec(db, script, frequency, now).None?
    decreases |script|
  {
    if n < |script| {
      var before := script[..|script| - 1];
      assert before[..n] == script[..n];
      RefusedForGood(db, before, n, frequency, now);
    } else {
      assert script[..n] == script;
    }
  }

  lemma {:induction false} IssuePair(db: Db, m: Message, now: Time)
    requires 1 <= |m| <= 2
    ensures IssueAll(db, m, now) == if |m| == 1 then Issue(db, m[0], now) else Issue(Issue(db, m[0], now), m[1], now)
  {
    var front := m[..|m| - 1];
    if |m| == 2 {
      assert front[..0] == [] && front[0] == m[0];
      assert IssueAll(db, front, now) == Issue(IssueAll(db, front[..0], now), front[0], now);
    } else {
      assert front == [];
    }
  }
}
