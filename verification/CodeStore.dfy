/** One-time codes: `OneTimeCodeStore` in sso_code_store.go. Time is an integer. */
module CodeStore {
  import opened Wrappers
  import opened Sets

  type Pair = string

  datatype Entry = Entry(pair: Pair, expiresAt: int)

  type Entries = map<string, Entry>

  // ------------------------------------------------------------ what the operations do

  function Pruned(m: Entries, now: int): Entries {
    map k | k in m && !(now > m[k].expiresAt) :: m[k]
  }

  function Issued(m: Entries, code: string, pair: Pair, expiresAt: int): Entries {
    m[code := Entry(pair, expiresAt)]
  }

  function Answer(m: Entries, code: string, now: int): Option<Pair> {
    if code in m && !(now > m[code].expiresAt) then Some(m[code].pair) else None
  }

  class OneTimeCodeStore {
    var entries: Entries
    const ttl: int

    constructor (ttl: int)
      ensures entries == map[] && this.ttl == ttl
    {
      entries, this.ttl := map[], ttl;
    }

    /** `pruneLocked`. */
    method PruneLocked(now: int)
      modifies this
      ensures entries == Pruned(old(entries), now)
      ensures forall k :: k in entries <==> k in old(entries) && now <= old(entries)[k].expiresAt
    {
      var todo := entries.Keys;
      while todo != {}
        invariant todo <= entries.Keys <= old(entries).Keys
        invariant forall k :: k in entries ==> entries[k] == old(entries)[k]
        invariant forall k :: k in old(entries) && k !in todo ==> (k in entries <==> !(now > old(entries)[k].expiresAt))
      {
        var k := AnyOf(todo);
        todo := todo - {k};
        if now > entries[k].expiresAt {
          entries := entries - {k};
        }
      }
    }

    /** `Issue`, given the random code and the two clock readings. */
    method Issue(pair: Pair, code: string, pruneAt: int, now: int)
      modifies this
      ensures entries == Issued(Pruned(old(entries), pruneAt), code, pair, now + ttl)
      ensures code in entries && entries[code] == Entry(pair, now + ttl)
      ensures forall k :: k != code ==>
                (k in entries <==> k in old(entries) && pruneAt <= old(entries)[k].expiresAt)
    {
      PruneLocked(pruneAt);
      entries := entries[code := Entry(pair, now + ttl)];
    }

    /** `Consume`. */
    method Consume(code: string, now: int) returns (r: Option<Pair>)
      modifies this
      ensures entries == old(entries) - {code} && r == Answer(old(entries), code, now)
    {
      if code !in entries {
        assert entries - {code} == entries;
        return None;
      }
      var e := entries[code];
      entries := entries - {code};
      return if now > e.expiresAt then None else Some(e.pair);
    }
  }

  // ------------------------------------------------------------ runs

  datatype Op =
    | IssueOp(code: string, pair: Pair, pruneAt: int, now: int)
    | ConsumeOp(code: string, now: int)

  /** Clock readings never go back. */
  ghost predicate Ordered(ops: seq<Op>, start: int) {
    ops == [] ||
    (match ops[0]
     case IssueOp(_, _, pruneAt, now) => start <= pruneAt <= now && Ordered(ops[1..], now)
     case ConsumeOp(_, now) => start <= now && Ordered(ops[1..], now))
  }

  /** The store after one operation, with or without pruning. */
  ghost function After(m: Entries, op: Op, ttl: int, prune: bool): Entries {
    match op
    case IssueOp(code, pair, pruneAt, now) => Issued(if prune then Pruned(m, pruneAt) else m, code, pair, now + ttl)
    case ConsumeOp(code, _) => m - {code}
  }

  /** What each operation hands out; issuing hands out nothing. */
  ghost function Answers(m: Entries, ops: seq<Op>, ttl: int, prune: bool): (r: seq<Option<Pair>>)
    ensures |r| == |ops|
    decreases |ops|
  {
    if ops == [] then []
    else
      [if ops[0].ConsumeOp? then Answer(m, ops[0].code, ops[0].now) else None]
      + Answers(After(m, ops[0], ttl, prune), ops[1..], ttl, prune)
  }

  /** The pruned store lacks nothing but expired entries. */
  ghost predicate LacksOnlyExpired(m: Entries, full: Entries, now: int) {
    && (forall k :: k in m ==> k in full && m[k] == full[k])
    && (forall k :: k in full && full[k].expiresAt >= now ==> k in m)
  }

  /** Pruning is invisible: every consume is answered as by a store that never prunes. */
  lemma {:induction false} PruningInvisible(m: Entries, full: Entries, ops: seq<Op>, ttl: int, start: int)
    requires Ordered(ops, start) && LacksOnlyExpired(m, full, start)
    ensures Answers(m, ops, ttl, true) == Answers(full, ops, ttl, false)
    decreases |ops|
  {
    if ops != [] {
      PruningInvisible(After(m, ops[0], ttl, true), After(full, ops[0], ttl, false), ops[1..], ttl, ops[0].now);
    }
  }

  lemma {:induction false} NothingWithoutIssue(m: Entries, ops: seq<Op>, ttl: int, code: string, j: nat)
    requires code !in m && j < |ops| && ops[j].ConsumeOp? && ops[j].code == code
    requires forall k :: 0 <= k < j ==> !(ops[k].IssueOp? && ops[k].code == code)
    ensures Answers(m, ops, ttl, true)[j].None?
    decreases |ops|
  {
    if j > 0 {
      NothingWithoutIssue(After(m, ops[0], ttl, true), ops[1..], ttl, code, j - 1);
    }
  }

  /** Between two successful consumes of a code it has been issued again; so a code that is issued
      once is handed out at most once. */
  lemma {:induction false} AtMostOnce(m: Entries, ops: seq<Op>, ttl: int, i: nat, j: nat)
    requires i < j < |ops| && ops[i].ConsumeOp? && ops[j].ConsumeOp? && ops[i].code == ops[j].code
    requires Answers(m, ops, ttl, true)[i].Some? && Answers(m, ops, ttl, true)[j].Some?
    ensures exists k :: i < k < j && ops[k].IssueOp? && ops[k].code == ops[i].code
    decreases |ops|
  {
    var rest := After(m, ops[0], ttl, true);
    if i > 0 {
      AtMostOnce(rest, ops[1..], ttl, i - 1, j - 1);
      var k :| i - 1 < k < j - 1 && ops[1..][k].IssueOp? && ops[1..][k].code == ops[1..][i - 1].code;
      assert ops[k + 1].IssueOp? && ops[k + 1].code == ops[i].code;
    } else if forall k :: i < k < j ==> !(ops[k].IssueOp? && ops[k].code == ops[i].code) {
      NothingWithoutIssue(rest, ops[1..], ttl, ops[0].code, j - 1);
    }
  }

  /** Where an answer comes from: an entry of the store, or an earlier issue of the same code, and
      in both cases one that has not expired. */
  lemma {:induction false} AnswerHasOrigin(m: Entries, ops: seq<Op>, ttl: int, i: nat)
    requires i < |ops| && Answers(m, ops, ttl, true)[i].Some?
    ensures ops[i].ConsumeOp?
    ensures var c, p := ops[i].code, Answers(m, ops, ttl, true)[i].value;
            || (c in m && m[c].pair == p && ops[i].now <= m[c].expiresAt)
            || exists k :: 0 <= k < i && IssuesFor(ops[k], c, p, ops[i].now, ttl)
    decreases |ops|
  {
    if i > 0 {
      var rest := After(m, ops[0], ttl, true);
      AnswerHasOrigin(rest, ops[1..], ttl, i - 1);
      var c, p := ops[i].code, Answers(m, ops, ttl, true)[i].value;
      if k :| 0 <= k < i - 1 && IssuesFor(ops[1..][k], c, p, ops[i].now, ttl) {
        assert IssuesFor(ops[k + 1], c, p, ops[i].now, ttl);
      } else if ops[0].IssueOp? && ops[0].code == c {
        assert IssuesFor(ops[0], c, p, ops[i].now, ttl);
      }
    }
  }

  /** The operation issued this pair under this code, and it is still valid at the given time. */
  ghost predicate IssuesFor(op: Op, code: string, pair: Pair, at: int, ttl: int) {
    op.IssueOp? && op.code == code && op.pair == pair && at <= op.now + ttl
  }

  lemma {:induction false} KeptUntilAsked(m: Entries, ops: seq<Op>, ttl: int, start: int, j: nat)
    requires Ordered(ops, start) && j < |ops| && ops[j].ConsumeOp?
    requires ops[j].code in m && ops[j].now <= m[ops[j].code].expiresAt
    requires forall k :: 0 <= k < j ==> ops[k].code != ops[j].code
    ensures Answers(m, ops, ttl, true)[j] == Some(m[ops[j].code].pair)
    decreases |ops|
  {
    if j > 0 {
      OrderedUpTo(ops, start, j);
      KeptUntilAsked(After(m, ops[0], ttl, true), ops[1..], ttl, ops[0].now, j - 1);
    }
  }

  lemma {:induction false} OrderedUpTo(ops: seq<Op>, start: int, j: nat)
    requires Ordered(ops, start) && j < |ops|
    ensures start <= ops[j].now && forall k :: 0 <= k < j && ops[k].IssueOp? ==> ops[k].pruneAt <= ops[j].now
    decreases |ops|
  {
    if j > 0 {
      OrderedUpTo(ops[1..], ops[0].now, j - 1);
      assert forall k :: 1 <= k < j ==> ops[k] == ops[1..][k - 1];
    }
  }

  /** The first consume of an issued code within its lifetime gets the pair, however much is pruned. */
  lemma {:induction false} IssuedIsAnswered(m: Entries, ops: seq<Op>, ttl: int, start: int, i: nat, j: nat)
    requires Ordered(ops, start) && i < j < |ops| && ops[i].IssueOp? && ops[j].ConsumeOp? && ops[i].code == ops[j].code
    requires ops[j].now <= ops[i].now + ttl && forall k :: i < k < j ==> ops[k].code != ops[i].code
    ensures Answers(m, ops, ttl, true)[j] == Some(ops[i].pair)
    decreases |ops|
  {
    var rest := After(m, ops[0], ttl, true);
    if i == 0 {
      KeptUntilAsked(rest, ops[1..], ttl, ops[0].now, j - 1);
    } else {
      IssuedIsAnswered(rest, ops[1..], ttl, ops[0].now, i - 1, j - 1);
    }
  }

  /** From an empty store with fresh codes: every pair handed out was issued before under that very
      code, had not expired, and is not handed out again. */
  lemma FreshCodesSingleUse(ops: seq<Op>, ttl: int, i: nat)
    requires i < |ops| && Answers(map[], ops, ttl, true)[i].Some?
    requires forall a, b :: 0 <= a < b < |ops| && ops[a].IssueOp? && ops[b].IssueOp? ==> ops[a].code != ops[b].code
    ensures ops[i].ConsumeOp?
    ensures exists k :: 0 <= k < i && IssuesFor(ops[k], ops[i].code, Answers(map[], ops, ttl, true)[i].value,
        ops[i].now, ttl)
    ensures forall j :: 0 <= j < |ops| && j != i && ops[j].ConsumeOp? && ops[j].code == ops[i].code ==>
              Answers(map[], ops, ttl, true)[j].None?
  {
    AnswerHasOrigin(map[], ops, ttl, i);
    forall j | 0 <= j < |ops| && j != i && ops[j].ConsumeOp? && ops[j].code == ops[i].code
      ensures Answers(map[], ops, ttl, true)[j].None?
    {
      if Answers(map[], ops, ttl, true)[j].Some? {
        AnswerHasOrigin(map[], ops, ttl, j);
        AtMostOnce(map[], ops, ttl, if i < j then i else j, if i < j then j else i);
        assert false;
      }
    }
  }
}
