/** When a one-time token may be issued, what issuing and taking it back leave in each table, and how far apart two
    are. */
module DeliveryLaws {
  import opened Prelude
  import opened Delivery

  // ---- one send ------------------------------------------------------------------------------

  /** The row that decides whether a send comes too soon; None for one that is exempt. */
  function Judged(op: Op): Option<Key> {
    match op
    case SendLink(u, kind, _, false) => Some(Key(u, kind))
    case SendChange(u, _, _) => Some(Key(u, ChangeNew))
    case _ => None
  }

  /** A send is refused exactly if its row was stamped less than `frequency` ago. */
  lemma {:induction false} RefusedExactlyIf(db: Db, script: seq<Op>, op: Op, frequency: nat, now: Time)
    requires Exec(db, script, frequency, now).Some?
    ensures var rows := Exec(db, script, frequency, now).value.db.rows;
            Exec(db, script + [op], frequency, now).None? <==>
              Judged(op).Some? && Judged(op).value in rows
              && frequency > 0 && now < rows[Judged(op).value].updatedAt + frequency
  {
    assert (script + [op])[..|script|] == script;
    hide Effect, MessageOf;
  }

  /** A refused step stops the whole script. */
  lemma {:induction false} RefusedStays(db: Db, script: seq<Op>, more: seq<Op>, frequency: nat, now: Time)
    requires Exec(db, script, frequency, now).None?
    ensures Exec(db, script + more, frequency, now).None?
    decreases |more|
  {
    if more == [] {
      assert script + more == script;
    } else {
      var all := script + more;
      assert all[..|all| - 1] == script + more[..|more| - 1];
      RefusedStays(db, script, more[..|more| - 1], frequency, now);
    }
  }

  predicate Holds(db: Db, it: Item, now: Time, column: SentColumn) {
    && it.key in db.rows && db.rows[it.key] == Row(it.hash, now)
    && it.key in db.columns && db.columns[it.key] == it.hash
    && (it.key.user, column) in db.sent && db.sent[(it.key.user, column)] == now
  }

  /** Nothing changed but about these keys and this column. */
  ghost predicate OnlyAbout(db: Db, db': Db, keys: set<Key>, user: int, column: SentColumn) {
    && (forall k :: k !in keys ==> (k in db'.rows <==> k in db.rows) && (k in db.rows ==> db'.rows[k] == db.rows[k]))
    && (forall k :: k !in keys ==>
          (k in db'.columns <==> k in db.columns) && (k in db.columns ==> db'.columns[k] == db.columns[k]))
    && (forall c :: c != (user, column) ==>
      (c in db'.sent <==> c in db.sent) && (c in db.sent ==> db'.sent[c] == db.sent[c]))
  }

  /** What a send of one token leaves: the row, the user's copy and the time of that kind's column. */
  lemma {:induction false} LinkStores(db: Db, u: int, kind: Kind, hash: Hash, skip: bool, now: Time, column: SentColumn)
    requires match kind
             case Confirmation => column.ConfirmationSent?
             case Reauthentication => column.ReauthenticationSent?
             case Recovery => column.RecoverySent?
             case PhoneChange => column.PhoneChangeSent?
             case _ => column.EmailChangeSent?
    ensures var db' := Effect(db, SendLink(u, kind, hash, skip), now);
            Holds(db', Item(Key(u, kind), hash), now, column) && OnlyAbout(db, db', {Key(u, kind)}, u, column)
  {
    OneIssued(db, Item(Key(u, kind), hash), now);
  }

  lemma {:induction false} OneIssued(db: Db, it: Item, now: Time)
    ensures IssueAll(db, [it], now) == Issue(db, it, now)
  {
    assert [it][..0] == [];
  }

  /** What an email change leaves: a token for the new address, and one for the current address or no copy of any. */
  lemma {:induction false} ChangeStores(db: Db, u: int, hashNew: Hash, hashCurrent: Option<Hash>, now: Time)
    ensures var db' := Effect(db, SendChange(u, hashNew, hashCurrent), now);
            var other := Key(u, ChangeCurrent);
            && Holds(db', Item(Key(u, ChangeNew), hashNew), now, EmailChangeSent)
            && (hashCurrent.Some? ==> Holds(db', Item(other, hashCurrent.value), now, EmailChangeSent))
            && (hashCurrent.None? ==>
                  && other !in db'.columns && (other in db'.rows <==> other in db.rows)
                  && (other in db.rows ==> db'.rows[other] == db.rows[other]))
            && OnlyAbout(db, db', {Key(u, ChangeNew), other}, u, EmailChangeSent)
  {
    var start := db.(columns := db.columns - {Key(u, ChangeCurrent)});
    var first := Item(Key(u, ChangeNew), hashNew);
    OneIssued(start, first, now);
    if hashCurrent.Some? {
      var second := Item(Key(u, ChangeCurrent), hashCurrent.value);
      assert [first, second][..1] == [first];
      assert IssueAll(start, [first, second], now) == Issue(Issue(start, first, now), second, now);
    }
  }

  /** Clearing a user's tokens removes its rows and nothing else. */
  lemma {:induction false} ClearLeaves(db: Db, u: int, now: Time)
    ensures var db' := Effect(db, ClearAll(u), now);
            && (forall k :: k in db'.rows <==> k in db.rows && k.user != u)
            && (forall k :: k in db'.rows ==> db'.rows[k] == db.rows[k])
            && db'.columns == db.columns && db'.sent == db.sent
  {}

  // ---- a whole transaction -----------------------------------------------------------------------

  /** What the caller is told. */
  lemma {:induction false} AnswersExactly(
      db: Db, script: seq<Op>, ending: Ending, frequency: nat, now: Time, post: Postman, w: World)
    ensures var r := InTx(db, script, ending, frequency, now, post, w);
            if Exec(db, script, frequency, now).None? || ending == PlainError
            then r.answer == Error && r.db == db && r.pending == []
            else
              var pending := Exec(db, script, frequency, now).value.pending;
              && (r.answer == DeliveryFailed <==> exists n :: 0 <= n < |pending| && post(n) < |pending[n]|)
              && (r.answer == Fine <==>
                    ending == Success && forall n :: 0 <= n < |pending| ==> post(n) >= |pending[n]|)
  {
    if Exec(db, script, frequency, now).Some? && ending != PlainError {
      var p := Exec(db, script, frequency, now).value;
      var sent := DeliverFrom(p.db, p.pending, 0, post, w).1;
      FirstFailed(p.db, p.pending, 0, post, w);
      hide Exec, DeliverFrom;
      FailsExactlyIf(p.pending, post, sent);
    }
  }

  lemma {:induction false} FailsExactlyIf(pending: seq<Message>, post: Postman, sent: nat)
    requires sent <= |pending| && (forall n :: 0 <= n < sent ==> Sent(post, pending, n))
    requires sent < |pending| ==> !Sent(post, pending, sent)
    ensures sent < |pending| <==> exists n :: 0 <= n < |pending| && post(n) < |pending[n]|
  {
    if sent < |pending| { assert post(sent) < |pending[sent]|; }
    if n :| 0 <= n < |pending| && post(n) < |pending[n]| { assert !Sent(post, pending, n); }
  }

  /** With nobody else around, a token that could not be sent leaves nothing behind in any table. */
  lemma {:induction false} FailedSendLeavesNothing(
      db: Db, u: int, kind: Kind, hash: Hash, frequency: nat, now: Time, post: Postman, w: World)
    requires post(0) == 0 && forall n, d :: w(n, d) == d
    ensures var key, column := Key(u, kind), (u, SentAt(kind));
            var r := InTx(db, [SendLink(u, kind, hash, true)], Success, frequency, now, post, w);
            && r.answer == DeliveryFailed
            && r.db == Db(db.rows - {key}, db.columns - {key}, db.sent - {column})
  {
    var op := SendLink(u, kind, hash, true);
    var it := Item(Key(u, kind), hash);
    OneOp(db, op, frequency, now);
    OneIssued(db, it, now);
    var db1 := Issue(db, it, now);
    var pending := [MessageOf(op)];
    assert pending[0] == [it];
    OneUndone(db1, pending, it, w);
    var d := Execute(Execute(db1, Blank(it)), Drop(it));
    assert d.rows == db.rows - {it.key} && d.columns == db.columns - {it.key};
    assert d.sent == db.sent - {(u, SentAt(kind))};
    hide Undo, UndoingFrom, Exec, Execute;
    assert !Sent(post, pending, 0);
    assert DeliverFrom(db1, pending, 0, post, w) == (d, 0);
  }

  lemma {:induction false} OneUndone(db: Db, pending: seq<Message>, it: Item, w: World)
    requires pending == [[it]] && forall n, d :: w(n, d) == d
    ensures Undo(db, UndoingFrom(pending, 0), 0, w) == Execute(Execute(db, Blank(it)), Drop(it))
  {
    var both, last, none: seq<Statement> := [Blank(it), Drop(it)], [Drop(it)], [];
    assert [it][1..] == [] && Undoing([]) == [];
    assert Undoing([it]) == both;
    assert UndoingFrom(pending, 1) == none;
    assert UndoingFrom(pending, 0) == both;
    assert both[1..] == last && last[1..] == none;
    hide Execute;
    var db1 := Execute(db, Blank(it));
    var db2 := Execute(db1, Drop(it));
    assert Undo(db2, none, 2, w) == db2;
    assert Undo(db1, last, 1, w) == db2;
  }

  // ---- how far apart -----------------------------------------------------------------------------

  /** One transaction as it happened. */
  datatype Tx = Tx(script: seq<Op>, ending: Ending, now: Time, post: Postman, w: World)

  function After(db: Db, txs: seq<Tx>, frequency: nat): Db {
    if txs == [] then db
    else
      var t := txs[|txs| - 1];
      InTx(After(db, txs[..|txs| - 1], frequency), t.script, t.ending, frequency, t.now, t.post, t.w).db
  }

  /** A row is stamped no earlier than `since`, if it is there. */
  predicate Stamped(db: Db, key: Key, since: Time) {
    key in db.rows ==> db.rows[key].updatedAt >= since
  }

  /** Other requests leave the row alone, remove it or stamp it no earlier. */
  ghost predicate StampsLater(w: World, key: Key, since: Time) {
    forall n, db :: Stamped(db, key, since) ==> Stamped(w(n, db), key, since)
  }

  predicate InOrder(txs: seq<Tx>) {
    forall i, j :: 0 <= i <= j < |txs| ==> txs[i].now <= txs[j].now
  }

  lemma {:induction false} IssueStamps(db: Db, m: Message, now: Time, key: Key, since: Time)
    requires Stamped(db, key, since) && since <= now
    ensures Stamped(IssueAll(db, m, now), key, since)
  {
    if m != [] { IssueStamps(db, m[..|m| - 1], now, key, since); }
  }

  lemma {:induction false} EffectStamps(db: Db, op: Op, now: Time, key: Key, since: Time)
    requires Stamped(db, key, since) && since <= now
    ensures Stamped(Effect(db, op, now), key, since)
  {
    hide MessageOf;
    match op
    case SendLink(_, _, _, _) => IssueStamps(db, MessageOf(op), now, key, since);
    case SendChange(u, _, _) =>
      IssueStamps(db.(columns := db.columns - {Key(u, ChangeCurrent)}), MessageOf(op), now, key, since);
    case ClearAll(_) =>
  }

  lemma {:induction false} ExecStamps(db: Db, script: seq<Op>, frequency: nat, now: Time, key: Key, since: Time)
    requires Stamped(db, key, since) && since <= now && Exec(db, script, frequency, now).Some?
    ensures Stamped(Exec(db, script, frequency, now).value.db, key, since)
  {
    hide Effect, Allowed, MessageOf;
    if script != [] {
      ExecStamps(db, script[..|script| - 1], frequency, now, key, since);
      EffectStamps(Exec(db, script[..|script| - 1], frequency, now).value.db, script[|script| - 1], now, key, since);
    }
  }

  lemma {:induction false} UndoStamps(db: Db, todo: seq<Statement>, n: nat, w: World, key: Key, since: Time)
    requires Stamped(db, key, since) && StampsLater(w, key, since)
    ensures Stamped(Undo(db, todo, n, w), key, since)
    decreases |todo|
  {
    if todo != [] {
      assert Stamped(w(n, db), key, since);
      UndoStamps(Execute(w(n, db), todo[0]), todo[1..], n + 1, w, key, since);
    }
  }

  lemma {:induction false} DeliverStamps(
      db: Db, pending: seq<Message>, n: nat, post: Postman, w: World, key: Key, since: Time)
    requires n <= |pending| && Stamped(db, key, since) && StampsLater(w, key, since)
    ensures Stamped(DeliverFrom(db, pending, n, post, w).0, key, since)
    decreases |pending| - n
  {
    hide Undo, UndoingFrom;
    if n < |pending| {
      if Sent(post, pending, n) {
        DeliverStamps(w(n, db), pending, n + 1, post, w, key, since);
      } else {
        UndoStamps(db, UndoingFrom(pending, n), n, w, key, since);
      }
    }
  }

  lemma {:induction false} TxStamps(db: Db, t: Tx, frequency: nat, key: Key, since: Time)
    requires Stamped(db, key, since) && since <= t.now && StampsLater(t.w, key, since)
    ensures Stamped(InTx(db, t.script, t.ending, frequency, t.now, t.post, t.w).db, key, since)
  {
    hide Exec, DeliverFrom, StampsLater;
    if Exec(db, t.script, frequency, t.now).Some? {
      ExecStamps(db, t.script, frequency, t.now, key, since);
      var p := Exec(db, t.script, frequency, t.now).value;
      DeliverStamps(p.db, p.pending, 0, t.post, t.w, key, since);
    }
  }

  lemma {:induction false} IssuedStamp(db: Db, m: Message, now: Time, a: nat)
    requires a < |m|
    ensures Stamped(IssueAll(db, m, now), m[a].key, now)
  {
    if a < |m| - 1 {
      IssuedStamp(db, m[..|m| - 1], now, a);
    }
  }

  /** The transaction issued the key. */
  predicate Issues(t: Tx, a: nat, key: Key) {
    a < |t.script| && exists it :: it in MessageOf(t.script[a]) && it.key == key
  }

  lemma {:induction false} IssuingStamps(db: Db, script: seq<Op>, frequency: nat, now: Time, a: nat, key: Key)
    requires a < |script| && (exists it :: it in MessageOf(script[a]) && it.key == key)
    requires Exec(db, script, frequency, now).Some?
    ensures Stamped(Exec(db, script, frequency, now).value.db, key, now)
    decreases |script|
  {
    hide Allowed, IssueAll, Stamped;
    var before, op := script[..|script| - 1], script[|script| - 1];
    var p := Exec(db, before, frequency, now).value;
    hide MessageOf, Effect;
    if a < |before| {
      IssuingStamps(db, before, frequency, now, a, key);
      EffectStamps(p.db, op, now, key, now);
    } else {
      EffectIssues(p.db, op, now, key);
    }
  }

  lemma {:induction false} EffectIssues(db: Db, op: Op, now: Time, key: Key)
    requires exists it :: it in MessageOf(op) && it.key == key
    ensures Stamped(Effect(db, op, now), key, now)
  {
    var it :| it in MessageOf(op) && it.key == key;
    var n :| 0 <= n < |MessageOf(op)| && MessageOf(op)[n] == it;
    IssuedStamp(if op.SendChange? then db.(columns := db.columns - {Key(op.user, ChangeCurrent)}) else db,
      MessageOf(op), now, n);
    hide MessageOf, IssueAll, Stamped;
  }

  /** From the issuing transaction on, the row is stamped no earlier than it, if it is there. */
  lemma {:induction false} StampedSince(db: Db, txs: seq<Tx>, frequency: nat, i: nat, a: nat, key: Key, j: nat)
    requires i < j <= |txs| && InOrder(txs) && Issues(txs[i], a, key)
    requires Committed(db, txs, i, frequency)
    requires forall m :: i <= m < j ==> StampsLater(txs[m].w, key, txs[i].now)
    ensures Stamped(After(db, txs[..j], frequency), key, txs[i].now)
    decreases j
  {
    hide Exec, DeliverFrom, StampsLater, MessageOf, Stamped;
    var t := txs[j - 1];
    assert txs[..j][..j - 1] == txs[..j - 1];
    if j == i + 1 {
      var start := After(db, txs[..i], frequency);
      IssuingStamps(start, t.script, frequency, t.now, a, key);
      var p := Exec(start, t.script, frequency, t.now).value;
      DeliverStamps(p.db, p.pending, 0, t.post, t.w, key, t.now);
    } else {
      StampedSince(db, txs, frequency, i, a, key, j - 1);
      TxStamps(After(db, txs[..j - 1], frequency), t, frequency, key, txs[i].now);
    }
  }

  /** The transaction was not rolled back. */
  predicate Committed(db: Db, txs: seq<Tx>, i: nat, frequency: nat)
    requires i < |txs|
  {
    txs[i].ending != PlainError && Exec(After(db, txs[..i], frequency), txs[i].script, frequency, txs[i].now).Some?
  }

  /** Its step `b` was not refused, and found the row there. */
  predicate FindsRow(start: Db, t: Tx, b: nat, key: Key, frequency: nat)
    requires b < |t.script|
  {
    && Exec(start, t.script[..b], frequency, t.now).Some?
    && Exec(start, t.script[..b] + [t.script[b]], frequency, t.now).Some?
    && key in Exec(start, t.script[..b], frequency, t.now).value.db.rows
  }

  lemma {:induction false} FoundIsOld(start: Db, t: Tx, b: nat, key: Key, frequency: nat, since: Time)
    requires b < |t.script| && Judged(t.script[b]) == Some(key) && frequency > 0
        && FindsRow(start, t, b, key, frequency)
    requires Stamped(start, key, since) && since <= t.now
    ensures t.now >= since + frequency
  {
    ExecStamps(start, t.script[..b], frequency, t.now, key, since);
    RefusedExactlyIf(start, t.script[..b], t.script[b], frequency, t.now);
    hide Exec;
  }

  /** Over any transactions, other requests between all their steps: a send that is not exempt and still finds the row
      of an earlier issue of the same token comes at least `frequency` after it. */
  lemma {:induction false} SendsAreApart(
      db: Db, txs: seq<Tx>, frequency: nat, i: nat, a: nat, j: nat, b: nat, key: Key)
    requires i < j < |txs| && InOrder(txs) && Issues(txs[i], a, key) && frequency > 0
    requires Committed(db, txs, i, frequency)
    requires forall m :: i <= m < j ==> StampsLater(txs[m].w, key, txs[i].now)
    requires b < |txs[j].script| && Judged(txs[j].script[b]) == Some(key)
    requires FindsRow(After(db, txs[..j], frequency), txs[j], b, key, frequency)
    ensures txs[j].now >= txs[i].now + frequency
  {
    StampedSince(db, txs, frequency, i, a, key, j);
    hide FindsRow, After, Stamped, Committed;
    FoundIsOld(After(db, txs[..j], frequency), txs[j], b, key, frequency, txs[i].now);
  }
}
