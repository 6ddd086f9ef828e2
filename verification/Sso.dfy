/** Single sign-on accounts: `uniqueUsername` and `matchOrProvision` in sso_service.go. */
module Sso {
  import opened Wrappers
  import opened Sets

  // ------------------------------------------------------------ decimal suffixes

  function Itoa(n: nat): (s: string)
    ensures s != ""
  {
    var digit := ['0' + (n % 10) as char];
    if n < 10 then digit else Itoa(n / 10) + digit
  }

  function Atoi(s: string): int {
    if s == "" then 0 else Atoi(s[..|s| - 1]) * 10 + (s[|s| - 1] as int - '0' as int)
  }

  lemma {:induction false} AtoiItoa(n: nat)
    ensures Atoi(Itoa(n)) == n
  {
    var s := Itoa(n);
    assert s[|s| - 1] == '0' + (n % 10) as char;
    if n >= 10 {
      AtoiItoa(n / 10);
      assert s[..|s| - 1] == Itoa(n / 10);
    }
  }

  /** The names that are tried in turn: base, base1, base2, and so on. */
  function Candidate(base: string, i: nat): string {
    if i == 0 then base else base + Itoa(i)
  }

  /** The suffix is the number in decimal: digits only, no leading zero. */
  lemma {:induction false} ItoaIsDecimal(n: nat)
    ensures forall c :: c in Itoa(n) ==> '0' <= c <= '9'
    ensures n > 0 ==> Itoa(n)[0] != '0'
    ensures Atoi(Itoa(n)) == n
  {
    AtoiItoa(n);
    if n >= 10 {
      ItoaIsDecimal(n / 10);
      assert Itoa(n)[0] == Itoa(n / 10)[0];
    }
  }

  /** The names tried: the base, then the base followed by 1, 2 and so on. */
  lemma CandidateIs(base: string, i: nat)
    ensures i == 0 ==> Candidate(base, i) == base
    ensures i > 0 ==> |Candidate(base, i)| > |base| && Candidate(base, i)[..|base|] == base
                      && Atoi(Candidate(base, i)[|base|..]) == i
                      && Candidate(base, i)[|base|] != '0'
                      && forall c :: c in Candidate(base, i)[|base|..] ==> '0' <= c <= '9'
  {
    ItoaIsDecimal(i);
    assert i > 0 ==> Candidate(base, i)[|base|..] == Itoa(i);
  }

  lemma CandidatesDiffer(base: string, i: nat, j: nat)
    requires i != j
    ensures Candidate(base, i) != Candidate(base, j)
  {
    AtoiItoa(i);
    AtoiItoa(j);
    var a, b := Candidate(base, i), Candidate(base, j);
    assert i > 0 ==> a[|base|..] == Itoa(i);
    assert j > 0 ==> b[|base|..] == Itoa(j);
  }

  // ------------------------------------------------------------ a free username

  /** The local part of an email address, or all of it if nothing precedes the first at sign. */
  method LocalPart(email: string) returns (base: string)
    ensures base == Base(email)
  {
    var at := 0;
    while at < |email| && email[at] != '@'
      invariant 0 <= at <= |email| && '@' !in email[..at]
    {
      at := at + 1;
    }
    if at < |email| {
      FirstAt(email, at);
      return if at > 0 then email[..at] else email;
    }
    assert email[..at] == email;
    return email;
  }

  function Base(email: string): string {
    if '@' in email && email[0] != '@' then UpToAt(email) else email
  }

  function UpToAt(s: string): string {
    if s == "" || s[0] == '@' then "" else [s[0]] + UpToAt(s[1..])
  }

  lemma {:induction false} FirstAt(s: string, at: nat)
    requires at < |s| && s[at] == '@' && '@' !in s[..at]
    ensures UpToAt(s) == s[..at] && '@' in s && (at > 0 <==> s[0] != '@')
  {
    if at > 0 {
      assert s[0] in s[..at];
      assert s[1..][..at - 1] == s[..at][1..];
      FirstAt(s[1..], at - 1);
      assert s[..at] == [s[0]] + s[1..][..at - 1];
    }
  }

  /** The base by the position of the first at sign. */
  lemma BaseIs(email: string, at: nat)
    requires at <= |email| && '@' !in email[..at] && (at < |email| ==> email[at] == '@')
    ensures Base(email) == if 0 < at < |email| then email[..at] else email
  {
    if at < |email| {
      FirstAt(email, at);
    } else {
      assert email[..at] == email;
    }
  }

  /** `uniqueUsername`: the first candidate that is free. A lookup that fails counts as taken, so
      with finitely many failing probes the search ends after at most one probe more than there
      are taken names and failures. */
  method UniqueUsername(taken: set<string>, email: string, failing: set<nat>) returns (name: string, probes: nat)
    ensures name !in taken
    ensures 0 < probes <= |taken| + |failing| + 1
    ensures name == Candidate(Base(email), probes - 1)
    ensures forall j :: 0 <= j < probes - 1 ==> Candidate(Base(email), j) in taken || j in failing
  {
    var base := LocalPart(email);
    var candidate := base;
    var i := 1;
    while true
      invariant i >= 1 && candidate == Candidate(base, i - 1)
      invariant forall j :: 0 <= j < i - 1 ==> Candidate(base, j) in taken || j in failing
      decreases |taken| + |failing| + 1 - i
    {
      ProbesBounded(base, i - 1, taken, failing);
      if i - 1 !in failing && candidate !in taken {
        return candidate, i;
      }
      ProbesBounded(base, i, taken, failing);
      candidate := base + Itoa(i);
      i := i + 1;
    }
  }

  /** The name is a candidate, and each one before it was taken or could not be looked up. */
  ghost predicate IsFirstFree(taken: set<string>, failing: set<nat>, base: string, name: string) {
    && name !in taken
    && exists k: nat :: name == Candidate(base, k)
                        && forall j :: 0 <= j < k ==> Candidate(base, j) in taken || j in failing
  }

  /** Candidates differ, so each refused probe uses up one taken name or one failure. */
  lemma {:induction false} ProbesBounded(base: string, n: nat, taken: set<string>, failing: set<nat>)
    requires forall j :: 0 <= j < n ==> Candidate(base, j) in taken || j in failing
    ensures n <= |taken| + |failing|
    decreases n
  {
    if n > 0 {
      var c := Candidate(base, n - 1);
      if c in taken {
        forall j | 0 <= j < n - 1 ensures Candidate(base, j) != c {
          CandidatesDiffer(base, j, n - 1);
        }
        ProbesBounded(base, n - 1, taken - {c}, failing);
      } else {
        ProbesBounded(base, n - 1, taken, failing - {n - 1});
      }
    }
  }

  // ------------------------------------------------------------ accounts

  datatype Account = Account(name: string, username: string, email: string, active: bool)

  datatype Claims = Claims(email: string, emailVerified: bool, name: string)

  datatype Config = Config(autoProvision: bool, defaultRole: string)

  datatype Faults = Faults(lookup: bool, probes: set<nat>, create: bool, assign: bool)

  datatype Error = EmailUnverified | AccountDisabled | NoAccount | Lookup | Create | AssignRole

  predicate Answers(a: Account, identifier: string) { a.username == identifier || a.email == identifier }

  /** The two unique columns of the table. A username may be the email of another account. */
  ghost predicate Unique(users: map<int, Account>) {
    && (forall a, b :: a in users && b in users && users[a].username == users[b].username ==> a == b)
    && forall a, b :: a in users && b in users && users[a].email == users[b].email ==> a == b
  }

  /** No identifier belongs to two accounts, be it as username or as email. */
  ghost predicate Separate(users: map<int, Account>) {
    forall a, b, s :: a in users && b in users && Answers(users[a], s) && Answers(users[b], s) ==> a == b
  }

  /** The answer of a query for the first account by primary key. */
  predicate First(users: map<int, Account>, identifier: string, id: int) {
    && id in users && Answers(users[id], identifier)
    && forall k :: k in users && Answers(users[k], identifier) ==> id <= k
  }

  ghost function AnsweringBefore(users: map<int, Account>, identifier: string, id: int): set<int> {
    set k | k in users && Answers(users[k], identifier) && k < id
  }

  lemma {:induction false} FirstExists(users: map<int, Account>, identifier: string, id: int) returns (first: int)
    requires id in users && Answers(users[id], identifier)
    ensures First(users, identifier, first)
    decreases AnsweringBefore(users, identifier, id)
  {
    first := id;
    if k :| k in users && Answers(users[k], identifier) && k < id {
      assert k in AnsweringBefore(users, identifier, id) && k !in AnsweringBefore(users, identifier, k);
      first := FirstExists(users, identifier, k);
    }
  }

  /** Every account that uses the email as its username comes after the account that has it as its email. */
  ghost predicate EmailComesFirst(users: map<int, Account>, email: string) {
    forall k :: k in users && users[k].username == email ==> exists j :: j in users && users[j].email == email && j <= k
  }

  /** Looking up an email also finds usernames. The account it finds has that email exactly when no
      account before uses it as a username. */
  lemma MatchHasEmailIff(users: map<int, Account>, email: string, id: int)
    requires First(users, email, id)
    ensures users[id].email == email <==> EmailComesFirst(users, email)
    ensures (forall k :: k in users ==> users[k].username != email) ==> users[id].email == email
  {
  }

  /** Where no identifier is shared, the owner of an email is the account it finds. */
  lemma SeparateMatch(users: map<int, Account>, email: string, id: int, owner: int)
    requires Separate(users) && First(users, email, id) && owner in users && users[owner].email == email
    ensures id == owner
  {
    assert Answers(users[owner], email);
  }

  /** A table the database admits in which the owner of an email is signed in to another account. */
  lemma WrongAccount()
    ensures var users := map[1 := Account("B", "a@x.org", "b@x.org", true), 2 := Account("A", "a", "a@x.org", true)];
            Unique(users) && First(users, "a@x.org", 1) && users[1].email != users[2].email == "a@x.org"
  {
    assert "a@x.org"[0] != "b@x.org"[0];
    assert |"a"| != |"a@x.org"|;
  }

  class Accounts {
    var users: map<int, Account>
    var roles: map<int, string>
    var nextId: int

    ghost predicate Valid()
      reads this
    {
      (forall id :: id in users ==> id < nextId) && Unique(users)
    }

    constructor ()
      ensures Valid() && users == map[] && roles == map[]
    {
      users, roles, nextId := map[], map[], 1;
    }

    function Identifiers(): set<string>
      reads this
    {
      (set id | id in users :: users[id].username) + (set id | id in users :: users[id].email)
    }

    /** `GetByUsernameOrEmail`. */
    method Find(identifier: string) returns (r: Option<int>)
      ensures r.Some? ==> First(users, identifier, r.value)
      ensures r.None? <==> identifier !in Identifiers()
    {
      if identifier !in Identifiers() {
        return None;
      }
      ghost var any :| any in users && Answers(users[any], identifier);
      ghost var first := FirstExists(users, identifier, any);
      var id :| id in users && First(users, identifier, id);
      return Some(id);
    }

    method Insert(a: Account) returns (id: int)
      requires Valid() && a.username !in Identifiers() && a.email !in Identifiers()
      modifies this`users, this`nextId
      ensures Valid() && id == old(nextId) && id !in old(users) && users == old(users)[id := a]
      ensures old(Separate(users)) ==> Separate(users)
    {
      id := nextId;
      assert forall k, s :: k in users && Answers(users[k], s) ==> s in Identifiers();
      users, nextId := users[id := a], nextId + 1;
    }

    /** `matchOrProvision`. A failed role assignment leaves the new account in place. */
    method MatchOrProvision(claims: Claims, cfg: Config, f: Faults) returns (r: Result<int, Error>)
      requires Valid()
      modifies this
      ensures Valid() && (old(Separate(users)) ==> Separate(users))
      ensures r == Err(EmailUnverified) <==> claims.email == "" || !claims.emailVerified
      ensures r.Ok? ==> r.value in users && users[r.value].active && Answers(users[r.value], claims.email)
      ensures r.Ok? ==> (users[r.value].email == claims.email <==> EmailComesFirst(old(users), claims.email))
      ensures r.Ok? && claims.email in old(Identifiers()) ==>
                users == old(users) && roles == old(roles) && First(users, claims.email, r.value)
      ensures (r.Ok? && claims.email !in old(Identifiers())) || r == Err(AssignRole) ==>
                && cfg.autoProvision && old(nextId) !in old(users)
                && old(nextId) in users && users == old(users)[old(nextId) := users[old(nextId)]]
                && users[old(nextId)].email == claims.email && users[old(nextId)].active
                && users[old(nextId)].name == (if claims.name == "" then claims.email else claims.name)
                && users[old(nextId)].username !in old(Identifiers())
                && IsFirstFree(old(Identifiers()), f.probes, Base(claims.email), users[old(nextId)].username)
                && (r.Ok? ==> r.value == old(nextId)
                              && roles == old(roles)[r.value := if cfg.defaultRole == "" then "viewer"
                                  else cfg.defaultRole])
      ensures r.Err? ==> roles == old(roles) && (r.error != AssignRole ==> users == old(users))
      ensures r == Err(Lookup) <==> claims.email != "" && claims.emailVerified && f.lookup
      ensures claims.email != "" && claims.emailVerified && !f.lookup ==>
                if claims.email in old(Identifiers()) then
                  exists id :: First(old(users), claims.email, id)
                               && r == if old(users)[id].active then Ok(id) else Err(AccountDisabled)
                else
                  && (r == Err(NoAccount) <==> !cfg.autoProvision)
                  && (r == Err(Create) <==> cfg.autoProvision && f.create)
                  && (r == Err(AssignRole) <==> cfg.autoProvision && !f.create && f.assign)
                  && (r.Ok? <==> cfg.autoProvision && !f.create && !f.assign)
    {
      if claims.email == "" || !claims.emailVerified {
        return Err(EmailUnverified);
      }
      if f.lookup {
        return Err(Lookup);
      }
      var found := Find(claims.email);
      if found.Some? {
        MatchHasEmailIff(users, claims.email, found.value);
        return if users[found.value].active then Ok(found.value) else Err(AccountDisabled);
      }
      if !cfg.autoProvision {
        return Err(NoAccount);
      }
      var name := if claims.name == "" then claims.email else claims.name;
      var username, _ := UniqueUsername(Identifiers(), claims.email, f.probes);
      if f.create {
        return Err(Create);
      }
      var id := Insert(Account(name, username, claims.email, true));
      if f.assign {
        return Err(AssignRole);
      }
      roles := roles[id := if cfg.defaultRole == "" then "viewer" else cfg.defaultRole];
      return Ok(id);
    }
  }
}
