/** Bulk import: `ImportProxies` with its dry run, on top of ProxyService.CreateProxy. */
module ProxyImport {
  import opened Wrappers
  import opened Records
  import opened ProxyService

  datatype Input = Decoded(proxy: Proxy) | Undecodable

  datatype Status = Accepted | Conflict | Rejected | Created | SkippedConflict | Failed

  datatype Item = Item(index: nat, name: string, hostname: string, kind: string, status: Status)

  datatype Summary = Summary(total: nat, importable: nat, conflicts: nat, invalid: nat, created: nat, failed: nat)

  /** What the service holds when an item has its turn. */
  datatype Moment = Moment(db: Db, nextId: int, file: Option<Bytes>)

  /** What can go wrong while one item is created. */
  datatype Attempt = Attempt(faults: DbFaults, run: SyncRun) {
    /** Creating this proxy at this moment fails, and not for its hostname. */
    predicate Fails(m: Moment, proxy: Proxy, userId: int) {
      || faults.lookup
      || (&& !HostnameExists(m.db.proxies, proxy.hostname, 0)
          && (faults.write || !run.ReturnsNil(WithRow(m.db, m.nextId, NewRow(proxy, userId)), m.file)))
    }
  }

  /** What an item did to the database: its row if it was created, nothing if it did not fail. */
  predicate Changes(status: Status, input: Input, userId: int, m: Moment, m': Moment) {
    && (status == Created ==>
          && input.Decoded? && m.nextId !in m.db.proxies
          && m'.db == WithRow(m.db, m.nextId, NewRow(input.proxy, userId)))
    && (status != Created && status != Failed ==> m' == m)
  }

  /** The item got as far as it could fail, and did. */
  predicate MayFail(input: Input, dryRun: bool, userId: int, hostErr: bool, attempt: Attempt, m: Moment) {
    input.Decoded? && (hostErr || (!dryRun && attempt.Fails(m, input.proxy, userId)))
  }

  function Hostnames(rows: map<int, Proxy>): set<string> {
    set id | id in rows :: rows[id].hostname
  }

  predicate Importable(valid: Proxy -> bool, input: Input) {
    input.Decoded? && valid(input.proxy)
  }

  /** An earlier valid item of the batch has the same hostname. */
  predicate Repeats(valid: Proxy -> bool, inputs: seq<Input>, i: nat)
    requires i < |inputs| && inputs[i].Decoded?
  {
    exists j :: 0 <= j < i && Importable(valid, inputs[j]) && inputs[j].proxy.hostname == inputs[i].proxy.hostname
  }

  /** The preview of item i, from the batch and the hostnames in the database alone. */
  function Preview(valid: Proxy -> bool, taken: set<string>, inputs: seq<Input>, i: nat): Status
    requires i < |inputs|
  {
    if !Importable(valid, inputs[i]) then Rejected
    else if inputs[i].proxy.hostname in taken || Repeats(valid, inputs, i) then Conflict
    else Accepted
  }

  /** What a previewed status becomes when the batch is applied. */
  function Applied(s: Status): Status {
    match s
    case Accepted => Created
    case Conflict => SkippedConflict
    case other => other
  }

  function Reported(dryRun: bool, s: Status): Status {
    if dryRun then s else Applied(s)
  }

  function Count(items: seq<Item>, s: Status): nat {
    if items == [] then 0
    else Count(items[..|items| - 1], s) + if items[|items| - 1].status == s then 1 else 0
  }

  lemma CountNext(items: seq<Item>, i: nat, s: Status)
    requires i < |items|
    ensures Count(items[..i + 1], s) == Count(items[..i], s) + if items[i].status == s then 1 else 0
  {
    assert items[..i + 1][..i] == items[..i];
  }

  method SummarizeImport(items: seq<Item>, total: nat) returns (s: Summary)
    ensures s.total == total && s.importable + s.conflicts + s.invalid == |items|
    ensures s.created == Count(items, Created) && s.failed == Count(items, Failed)
    ensures s.importable == Count(items, Accepted) + s.created + s.failed
    ensures s.conflicts == Count(items, Conflict) + Count(items, SkippedConflict)
    ensures s.invalid == Count(items, Rejected)
  {
    s := Summary(total, 0, 0, 0, 0, 0);
    assert items[..|items|] == items;
    for i := 0 to |items|
      invariant s.total == total && s.importable + s.conflicts + s.invalid == i
      invariant s.created == Count(items[..i], Created) && s.failed == Count(items[..i], Failed)
      invariant s.importable == Count(items[..i], Accepted) + s.created + s.failed
      invariant s.conflicts == Count(items[..i], Conflict) + Count(items[..i], SkippedConflict)
      invariant s.invalid == Count(items[..i], Rejected)
    {
      forall st { CountNext(items, i, st); }
      match items[i].status {
        case Accepted => s := s.(importable := s.importable + 1);
        case Created => s := s.(importable := s.importable + 1, created := s.created + 1);
        case Failed => s := s.(importable := s.importable + 1, failed := s.failed + 1);
        case Conflict => s := s.(conflicts := s.conflicts + 1);
        case SkippedConflict => s := s.(conflicts := s.conflicts + 1);
        case Rejected => s := s.(invalid := s.invalid + 1);
      }
    }
  }

  /** No two created items share a hostname and none was taken before. */
  ghost predicate CreatedAreNew(items: seq<Item>, taken: set<string>) {
    && (forall i :: 0 <= i < |items| && items[i].status == Created ==> items[i].hostname !in taken)
    && (forall i, j :: 0 <= i < j < |items| && items[i].status == Created && items[j].status == Created ==>
          items[i].hostname != items[j].hostname)
  }

  /** The item names its input and its place. */
  predicate Names(item: Item, input: Input, i: nat) {
    && item.index == i
    && (if input.Decoded? then item.name == input.proxy.name && item.hostname == input.proxy.hostname
        && item.kind == input.proxy.kind
        else item.name == item.hostname == item.kind == "")
  }

  /** One turn of the loop: the reported item, and whether it claims its hostname. */
  method ImportOne(s: Service, input: Input, i: nat, dryRun: bool, userId: int, hostErr: bool, attempt: Attempt,
                   seen: set<string>, taken: set<string>)
    returns (item: Item, claims: bool)
    requires s.Valid() && attempt.run.Builds(s.builds)
    modifies s
    ensures s.Valid()
    ensures Names(item, input, i)
    ensures dryRun ==> s.db == old(s.db) && s.file == old(s.file) && s.live == old(s.live)
    ensures claims ==> Importable(s.valid, input) && item.hostname !in seen + taken
    ensures item.status == Created ==> claims
    ensures Hostnames(old(s.db.proxies)) <= Hostnames(s.db.proxies)
    ensures claims && !dryRun ==> Hostnames(s.db.proxies) == Hostnames(old(s.db.proxies)) + {item.hostname}
    ensures item.status == Created <==>
              && Importable(s.valid, input) && input.proxy.hostname !in seen + taken && !hostErr && !dryRun
              && !HostnameExists(old(s.db.proxies), input.proxy.hostname, 0)
              && !attempt.Fails(old(Moment(s.db, s.nextId, s.file)), input.proxy, userId)
    ensures Changes(item.status, input, userId, old(Moment(s.db, s.nextId, s.file)), Moment(s.db, s.nextId, s.file))
    ensures item.status == Failed <==>
              && Importable(s.valid, input) && input.proxy.hostname !in seen
              && (hostErr || input.proxy.hostname !in taken)
              && MayFail(input, dryRun, userId, hostErr, attempt, old(Moment(s.db, s.nextId, s.file)))
    ensures item.status != Failed && (dryRun || Hostnames(old(s.db.proxies)) == seen + taken) ==>
              && (claims <==> Expected(s.valid, input, seen + taken) == Accepted)
              && (!claims ==> Hostnames(s.db.proxies) == Hostnames(old(s.db.proxies)))
              && item.status == Reported(dryRun, Expected(s.valid, input, seen + taken))
  {
    if input.Undecodable? {
      return Item(i, "", "", "", Rejected), false;
    }
    var proxy := input.proxy;
    var res := Item(i, proxy.name, proxy.hostname, proxy.kind, Rejected);
    if !s.valid(proxy) {
      return res, false;
    }
    if proxy.hostname in seen {
      return res.(status := Reported(dryRun, Conflict)), false;
    }
    if hostErr {
      return res.(status := Failed), false;
    }
    if proxy.hostname in taken {
      return res.(status := Reported(dryRun, Conflict)), false;
    }
    if dryRun {
      return res.(status := Accepted), true;
    }
    ghost var before := s.db.proxies;
    assert HostnameExists(before, proxy.hostname, 0) ==> proxy.hostname in Hostnames(before);
    var r := s.CreateProxy(proxy, userId, attempt.faults, attempt.run);
    if r.Ok? || r == Err(SyncAndRollbackFailed) {
      HostnamesAfterInsert(before, old(s.nextId), s.db.proxies[old(s.nextId)], s.db.proxies);
    }
    if r.Err? {
      return res.(status := if r.error == HostnameConflict then SkippedConflict else Failed), false;
    }
    return res.(status := Created), true;
  }

  /** The loop of ImportProxies. */
  method ImportItems(s: Service, inputs: seq<Input>, dryRun: bool, userId: int, hostErr: bool, attempts: seq<Attempt>)
    returns (items: seq<Item>, ghost moments: seq<Moment>)
    requires s.Valid() && |attempts| == |inputs|
    requires forall i :: 0 <= i < |attempts| ==> attempts[i].run.Builds(s.builds)
    modifies s
    ensures s.Valid() && |items| == |inputs|
    ensures dryRun ==> s.db == old(s.db) && s.file == old(s.file) && s.live == old(s.live)
    ensures forall i :: 0 <= i < |inputs| ==> Names(items[i], inputs[i], i)
    ensures Traced(items, inputs, dryRun, userId, hostErr, attempts, moments)
    ensures moments[0] == old(Moment(s.db, s.nextId, s.file)) && moments[|inputs|] == Moment(s.db, s.nextId, s.file)
    ensures NoneFailed(items) ==> forall i :: 0 <= i < |inputs| ==>
              items[i].status == Reported(dryRun, Preview(s.valid, Hostnames(old(s.db.proxies)), inputs, i))
    ensures CreatedAreNew(items, Hostnames(old(s.db.proxies)))
  {
    items, moments := [], [Moment(s.db, s.nextId, s.file)];
    var seen: set<string> := {};
    var taken := Hostnames(s.db.proxies);
    for i := 0 to |inputs|
      invariant s.Valid() && |items| == i
      invariant dryRun ==> s.db == old(s.db) && s.file == old(s.file) && s.live == old(s.live)
      invariant Traced(items, inputs, dryRun, userId, hostErr, attempts, moments)
      invariant moments[0] == old(Moment(s.db, s.nextId, s.file)) && moments[i] == Moment(s.db, s.nextId, s.file)
      invariant Progress(s.valid, taken, inputs, dryRun, items, seen)
      invariant NoneFailed(items) && !dryRun ==> Hostnames(s.db.proxies) == seen + taken
    {
      var item, claims := ImportOne(s, inputs[i], i, dryRun, userId, hostErr, attempts[i], seen, taken);
      AppendedNoneFailed(items, item);
      NextItem(s.valid, taken, inputs, dryRun, items, seen, item, claims);
      TraceNext(items, inputs, dryRun, userId, hostErr, attempts, moments, item, Moment(s.db, s.nextId, s.file));
      if claims {
        seen := seen + {item.hostname};
      }
      items, moments := items + [item], moments + [Moment(s.db, s.nextId, s.file)];
    }
  }

  /** The moments between the items tell what each did to the database, and that one failed for a cause. */
  ghost predicate Traced(items: seq<Item>, inputs: seq<Input>, dryRun: bool, userId: int, hostErr: bool,
                         attempts: seq<Attempt>, moments: seq<Moment>)
  {
    && |items| <= |inputs| == |attempts| && |moments| == |items| + 1
    && (forall k :: 0 <= k < |items| ==> Changes(items[k].status, inputs[k], userId, moments[k], moments[k + 1]))
    && (forall k :: 0 <= k < |items| && items[k].status == Failed ==>
          MayFail(inputs[k], dryRun, userId, hostErr, attempts[k], moments[k]))
  }

  lemma TraceNext(items: seq<Item>, inputs: seq<Input>, dryRun: bool, userId: int, hostErr: bool,
                  attempts: seq<Attempt>, moments: seq<Moment>, item: Item, m: Moment)
    requires Traced(items, inputs, dryRun, userId, hostErr, attempts, moments) && |items| < |inputs|
    requires Changes(item.status, inputs[|items|], userId, moments[|items|], m)
    requires item.status == Failed ==>
               MayFail(inputs[|items|], dryRun, userId, hostErr, attempts[|items|], moments[|items|])
    ensures Traced(items + [item], inputs, dryRun, userId, hostErr, attempts, moments + [m])
  {
  }

  /** `ImportProxies`; `hostErr` is a failure of the one hostname query. A dry run writes nothing and
      reports the preview; an apply in which no item fails reports what the preview announced. */
  method ImportProxies(s: Service, inputs: seq<Input>, dryRun: bool, userId: int, hostErr: bool, attempts: seq<Attempt>)
    returns (items: seq<Item>, summary: Summary, ghost moments: seq<Moment>)
    requires s.Valid() && |attempts| == |inputs|
    requires forall i :: 0 <= i < |attempts| ==> attempts[i].run.Builds(s.builds)
    modifies s
    ensures s.Valid() && |items| == |inputs|
    ensures summary.importable + summary.conflicts + summary.invalid == summary.total == |inputs|
    ensures summary.created == Count(items, Created) && summary.failed == Count(items, Failed)
    ensures summary.importable == Count(items, Accepted) + summary.created + summary.failed
    ensures summary.conflicts == Count(items, Conflict) + Count(items, SkippedConflict)
    ensures summary.invalid == Count(items, Rejected)
    ensures dryRun ==> s.db == old(s.db) && s.file == old(s.file) && s.live == old(s.live)
    ensures forall i :: 0 <= i < |inputs| ==> Names(items[i], inputs[i], i)
    ensures Traced(items, inputs, dryRun, userId, hostErr, attempts, moments)
    ensures moments[0] == old(Moment(s.db, s.nextId, s.file)) && moments[|inputs|] == Moment(s.db, s.nextId, s.file)
    ensures NoneFailed(items) ==> forall i :: 0 <= i < |inputs| ==>
              items[i].status == Reported(dryRun, Preview(s.valid, Hostnames(old(s.db.proxies)), inputs, i))
    ensures CreatedAreNew(items, Hostnames(old(s.db.proxies)))
  {
    items, moments := ImportItems(s, inputs, dryRun, userId, hostErr, attempts);
    summary := SummarizeImport(items, |inputs|);
  }

  predicate NoneFailed(items: seq<Item>) {
    forall i :: 0 <= i < |items| ==> items[i].status != Failed
  }

  /** What holds of the items reported so far and the hostnames they claim. */
  ghost predicate Progress(valid: Proxy -> bool, taken: set<string>, inputs: seq<Input>, dryRun: bool,
                           items: seq<Item>, seen: set<string>)
  {
    && |items| <= |inputs|
    && (forall k :: 0 <= k < |items| ==> Names(items[k], inputs[k], k))
    && (forall k :: 0 <= k < |items| && items[k].status == Created ==> items[k].hostname in seen)
    && (NoneFailed(items) ==> AsPreviewed(valid, taken, inputs, dryRun, items, seen))
    && CreatedAreNew(items, taken)
  }

  ghost predicate AsPreviewed(valid: Proxy -> bool, taken: set<string>, inputs: seq<Input>, dryRun: bool,
                              items: seq<Item>, seen: set<string>)
    requires |items| <= |inputs|
  {
    && seen == AcceptedHosts(valid, taken, inputs[..|items|])
    && forall k :: 0 <= k < |items| ==> items[k].status == Reported(dryRun, Preview(valid, taken, inputs, k))
  }

  /** The status that an item should get, given the hostnames that are taken. */
  function Expected(valid: Proxy -> bool, input: Input, hosts: set<string>): Status {
    if !Importable(valid, input) then Rejected else if input.proxy.hostname in hosts then Conflict else Accepted
  }

  lemma NextItem(valid: Proxy -> bool, taken: set<string>, inputs: seq<Input>, dryRun: bool,
                 items: seq<Item>, seen: set<string>, item: Item, claims: bool)
    requires Progress(valid, taken, inputs, dryRun, items, seen) && |items| < |inputs|
    requires Names(item, inputs[|items|], |items|)
    requires claims ==> Importable(valid, inputs[|items|]) && item.hostname !in seen + taken
    requires item.status == Created ==> claims
    requires NoneFailed(items) && item.status != Failed ==>
               && item.status == Reported(dryRun, Expected(valid, inputs[|items|], seen + taken))
               && (claims <==> Expected(valid, inputs[|items|], seen + taken) == Accepted)
    ensures Progress(valid, taken, inputs, dryRun, items + [item], if claims then seen + {item.hostname} else seen)
  {
    AppendItem(items, item, seen, taken);
    AppendedNoneFailed(items, item);
    if NoneFailed(items + [item]) {
      NextPreviewed(valid, taken, inputs, dryRun, items, seen, item, claims);
    }
  }

  lemma NextPreviewed(valid: Proxy -> bool, taken: set<string>, inputs: seq<Input>, dryRun: bool,
                      items: seq<Item>, seen: set<string>, item: Item, claims: bool)
    requires |items| < |inputs| && AsPreviewed(valid, taken, inputs, dryRun, items, seen)
    requires Names(item, inputs[|items|], |items|)
    requires item.status == Reported(dryRun, Expected(valid, inputs[|items|], seen + taken))
    requires claims <==> Expected(valid, inputs[|items|], seen + taken) == Accepted
    ensures AsPreviewed(valid, taken, inputs, dryRun, items + [item], if claims then seen + {item.hostname} else seen)
  {
    PreviewNext(valid, taken, inputs, |items|);
  }

  lemma AppendedNoneFailed(items: seq<Item>, item: Item)
    ensures NoneFailed(items + [item]) <==> NoneFailed(items) && item.status != Failed
  {
    var more := items + [item];
    assert more[|items|] == item;
    assert forall i :: 0 <= i < |items| ==> more[i] == items[i];
  }

  lemma AppendItem(items: seq<Item>, item: Item, seen: set<string>, taken: set<string>)
    requires CreatedAreNew(items, taken)
    requires forall k :: 0 <= k < |items| && items[k].status == Created ==> items[k].hostname in seen
    requires item.status == Created ==> item.hostname !in seen + taken
    ensures CreatedAreNew(items + [item], taken)
  {
  }

  /** A dry run followed by the apply: unless an item fails, the preview comes true item by item. */
  method PreviewThenApply(s: Service, inputs: seq<Input>, userId: int, attempts: seq<Attempt>)
    returns (preview: seq<Item>, applied: seq<Item>, ghost moments: seq<Moment>)
    requires s.Valid() && |attempts| == |inputs|
    requires forall i :: 0 <= i < |attempts| ==> attempts[i].run.Builds(s.builds)
    modifies s
    ensures |preview| == |applied| == |inputs|
    ensures forall i :: 0 <= i < |inputs| ==> preview[i].status in {Accepted, Conflict, Rejected}
    ensures forall i :: 0 <= i < |inputs| ==> (preview[i].status == Rejected <==> !Importable(s.valid, inputs[i]))
    ensures forall i :: 0 <= i < |inputs| && Importable(s.valid, inputs[i]) ==>
              (preview[i].status == Conflict <==>
                 || inputs[i].proxy.hostname in Hostnames(old(s.db.proxies))
                 || exists j :: 0 <= j < i && Importable(s.valid, inputs[j])
                                && inputs[j].proxy.hostname == inputs[i].proxy.hostname)
    ensures NoneFailed(applied) ==> forall i :: 0 <= i < |inputs| ==>
              && (preview[i].status == Accepted ==> applied[i].status == Created)
              && (preview[i].status == Conflict ==> applied[i].status == SkippedConflict)
              && (preview[i].status == Rejected ==> applied[i].status == Rejected)
    ensures Traced(applied, inputs, false, userId, false, attempts, moments)
    ensures moments[0].db == old(s.db) && moments[|inputs|].db == s.db
  {
    var summary;
    preview, summary, moments := ImportProxies(s, inputs, true, userId, false, attempts);
    applied, summary, moments := ImportProxies(s, inputs, false, userId, false, attempts);
  }

  /** Hostnames the batch has claimed so far. */
  ghost function AcceptedHosts(valid: Proxy -> bool, taken: set<string>, inputs: seq<Input>): set<string> {
    set i | 0 <= i < |inputs| && Importable(valid, inputs[i])
        && inputs[i].proxy.hostname !in taken :: inputs[i].proxy.hostname
  }

  /** The preview of an item in terms of the hostnames claimed before it, and what it claims. */
  lemma PreviewNext(valid: Proxy -> bool, taken: set<string>, inputs: seq<Input>, i: nat)
    requires i < |inputs|
    ensures var claimed := AcceptedHosts(valid, taken, inputs[..i]);
            && Preview(valid, taken, inputs, i) == Expected(valid, inputs[i], claimed + taken)
            && AcceptedHosts(valid, taken, inputs[..i + 1]) == claimed
               + if Preview(valid, taken, inputs, i) == Accepted then {inputs[i].proxy.hostname} else {}
  {
    var a, b := AcceptedHosts(valid, taken, inputs[..i]), AcceptedHosts(valid, taken, inputs[..i + 1]);
    assert forall h :: h in a ==> h in b;
  }

  lemma HostnamesAfterInsert(before: map<int, Proxy>, id: int, row: Proxy, after: map<int, Proxy>)
    requires id !in before && after == before[id := row]
    ensures Hostnames(after) == Hostnames(before) + {row.hostname}
  {
    assert after[id] == row;
    assert forall k :: k in before ==> after[k] == before[k];
  }
}
