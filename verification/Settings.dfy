/** Metrics settings: the comma-separated list of networks and the key-value rows around it,
    settings_repository.go.
 */
module Settings {
  import opened Text

  // ------------------------------------------------------------ text

  /** `unicode.IsSpace`. */
  predicate IsSpace(c: char) {
    || c == ' ' || '\t' <= c <= '\r' || c == '\U{85}' || c == '\U{A0}' || c == '\U{1680}'
    || '\U{2000}' <= c <= '\U{200A}' || c == '\U{2028}' || c == '\U{2029}' || c == '\U{202F}'
    || c == '\U{205F}' || c == '\U{3000}'
  }

  /** `strings.TrimSpace`. */
  function TrimSpace(s: string): string { Trim(s, IsSpace) }

  /** `joinCIDRs`. */
  function JoinCIDRs(cidrs: seq<string>): string {
    if cidrs == [] then "" else if |cidrs| == 1 then cidrs[0] else cidrs[0] + "," + JoinCIDRs(cidrs[1..])
  }

  /** The trimmed parts that are not blank. */
  function Kept(parts: seq<string>): seq<string> {
    if parts == [] then []
    else
      var t := TrimSpace(parts[|parts| - 1]);
      Kept(parts[..|parts| - 1]) + if t != "" then [t] else []
  }

  function Parse(s: string): seq<string> { Kept(Split(s, ',')) }

  /** `splitCIDRs`. */
  method SplitCIDRs(s: string) returns (result: seq<string>)
    ensures result == Parse(s)
  {
    var parts := Split(s, ',');
    result := [];
    assert parts[..|parts|] == parts;
    for i := 0 to |parts|
      invariant result == Kept(parts[..i])
    {
      assert parts[..i + 1][..i] == parts[..i];
      var trimmed := TrimSpace(parts[i]);
      if trimmed != "" {
        result := result + [trimmed];
      }
    }
  }

  // ------------------------------------------------------------ round trips

  /** Not empty, without a comma and without blanks at the ends. */
  predicate CleanItem(x: string) {
    x != "" && ',' !in x && !IsSpace(x[0]) && !IsSpace(x[|x| - 1])
  }

  predicate Clean(xs: seq<string>) { forall x :: x in xs ==> CleanItem(x) }

  lemma {:induction false} SplitOfJoin(xs: seq<string>)
    requires Clean(xs) && xs != []
    ensures Split(JoinCIDRs(xs), ',') == xs
    decreases |xs|
  {
    assert xs[0] in xs;
    SplitFirst(xs[0], ',', JoinCIDRs(xs[1..]));
    if |xs| > 1 {
      SplitOfJoin(xs[1..]);
    }
  }

  lemma {:induction false} KeptClean(xs: seq<string>)
    requires Clean(xs)
    ensures Kept(xs) == xs
    decreases |xs|
  {
    if xs != [] {
      var x := xs[|xs| - 1];
      assert CleanItem(x);
      KeptClean(xs[..|xs| - 1]);
      assert xs == xs[..|xs| - 1] + [x];
    }
  }

  lemma TrimmedIsClean(s: string)
    requires ',' !in s
    ensures TrimSpace(s) != "" ==> CleanItem(TrimSpace(s))
  {
    var i, j := TrimRemovesEnds(s, IsSpace);
    assert ',' !in s[i..j];
  }

  lemma {:induction false} KeptIsClean(parts: seq<string>)
    requires forall p :: p in parts ==> ',' !in p
    ensures Clean(Kept(parts))
    decreases |parts|
  {
    if parts != [] {
      assert parts[|parts| - 1] in parts;
      KeptIsClean(parts[..|parts| - 1]);
      TrimmedIsClean(parts[|parts| - 1]);
    }
  }

  /** Parsing always yields a clean list. */
  lemma ParseIsClean(s: string)
    ensures Clean(Parse(s))
  {
    forall p | p in Split(s, ',')
      ensures ',' !in p
    {
      var k :| 0 <= k < |Split(s, ',')| && Split(s, ',')[k] == p;
      PiecesHaveNoSeparator(s, ',', k);
    }
    KeptIsClean(Split(s, ','));
  }

  /** A list survives printing and parsing exactly when it is clean. */
  lemma SurvivesIffClean(xs: seq<string>)
    ensures Parse(JoinCIDRs(xs)) == xs <==> Clean(xs)
  {
    ParseIsClean(JoinCIDRs(xs));
    if Clean(xs) {
      if xs == [] {
        assert Split("", ',') == [""] && Kept([""]) == Kept([]) + [];
      } else {
        SplitOfJoin(xs);
        KeptClean(xs);
      }
    }
  }

  /** What the parts of a text come to: each that is not blank appears, trimmed, in its order. */
  lemma {:induction false} KeptIs(parts: seq<string>, k: nat)
    requires k <= |parts|
    ensures Kept(parts) == Kept(parts[..k]) + Kept(parts[k..])
    ensures k < |parts| ==> Kept([parts[k]]) == if TrimSpace(parts[k]) == "" then [] else [TrimSpace(parts[k])]
    decreases |parts|
  {
    if k < |parts| {
      var init, last := parts[..|parts| - 1], parts[|parts| - 1];
      KeptIs(init, k);
      assert init[..k] == parts[..k] && init[k..] == parts[k..][..|parts[k..]| - 1];
      assert [parts[k]][..0] == [] && Kept([]) == [];
    } else {
      assert parts[..k] == parts && parts[k..] == [];
    }
  }

  /** A part with blanks around it is not lost. */
  lemma PaddedItemSurvives(item: string, rest: string)
    requires CleanItem(item)
    ensures Parse(" " + item + " ," + rest) == [item] + Parse(rest)
  {
    var padded := " " + item + " ";
    SplitFirst(padded, ',', rest);
    assert padded + [','] + rest == " " + item + " ," + rest;
    TrimPadded(item);
    var parts := [padded] + Split(rest, ',');
    KeptIs(parts, 1);
    KeptIs(parts, 0);
    assert parts[..1] == [padded] && parts[1..] == Split(rest, ',');
  }

  lemma TrimPadded(item: string)
    requires CleanItem(item)
    ensures TrimSpace(" " + item + " ") == item
  {
    var padded := " " + item + " ";
    assert padded[1..] == item + " " && IsSpace(' ');
    assert (item + " ")[..|item|] == item;
    assert Trim(item, IsSpace) == item;
    assert Trim(item + " ", IsSpace) == item;
  }

  /** Printing what was parsed is a normal form: it parses to the same list again. */
  lemma NormalForm(s: string)
    ensures Parse(JoinCIDRs(Parse(s))) == Parse(s)
  {
    ParseIsClean(s);
    SurvivesIffClean(Parse(s));
  }

  // ------------------------------------------------------------ the stored settings

  datatype Metrics = Metrics(enabled: bool, host: string, path: string, basicAuthUser: string,
                             basicAuthHash: string, allowedCIDRs: seq<string>)

  /** The keys of the metrics settings among all keys. */
  datatype Key =
    PublishEnabled | PublishHost | PublishPath | BasicAuthUser | BasicAuthHash | AllowedCIDRs | Other(name: string)

  function ValueOr(rows: map<Key, string>, key: Key, fallback: string): string {
    if key in rows then rows[key] else fallback
  }

  /** `GetMetricsPublishSettings` on the stored rows. */
  function Loaded(rows: map<Key, string>): Metrics {
    var cidrs := ValueOr(rows, AllowedCIDRs, "");
    Metrics(ValueOr(rows, PublishEnabled, "false") == "true",
            ValueOr(rows, PublishHost, ""), ValueOr(rows, PublishPath, "/metrics"),
            ValueOr(rows, BasicAuthUser, ""), ValueOr(rows, BasicAuthHash, ""),
            if cidrs != "" then Parse(cidrs) else [])
  }

  class SettingsRepository {
    var rows: map<Key, string>

    constructor ()
      ensures rows == map[]
    {
      rows := map[];
    }

    method Set(key: Key, value: string, fails: bool) returns (ok: bool)
      modifies this
      ensures ok == !fails && rows == if ok then old(rows)[key := value] else old(rows)
    {
      if fails {
        return false;
      }
      rows := rows[key := value];
      return true;
    }

    /** `SetMetricsPublishSettings`: six rows in turn; `failAt` is the write that fails, if any, and the
        rows before it stay written. A store that succeeds loads back as it was given exactly when its
        list of networks is clean. */
    method SetMetrics(m: Metrics, failAt: int) returns (ok: bool)
      modifies this
      ensures ok <==> !(0 <= failAt < 6)
      ensures rows == WrittenUpTo(old(rows), m, if 0 <= failAt < 6 then failAt else 6)
      ensures ok ==> (Loaded(rows) == m <==> Clean(m.allowedCIDRs))
    {
      ok := Set(PublishEnabled, if m.enabled then "true" else "false", failAt == 0);
      if !ok { return; }
      ok := Set(PublishHost, m.host, failAt == 1);
      if !ok { return; }
      ok := Set(PublishPath, m.path, failAt == 2);
      if !ok { return; }
      ok := Set(BasicAuthUser, m.basicAuthUser, failAt == 3);
      if !ok { return; }
      ok := Set(BasicAuthHash, m.basicAuthHash, failAt == 4);
      if !ok { return; }
      ok := Set(AllowedCIDRs, JoinCIDRs(m.allowedCIDRs), failAt == 5);
      StoredLoads(old(rows), m);
    }
  }

  /** The stored rows after the first n writes. */
  function WrittenUpTo(rows: map<Key, string>, m: Metrics, n: nat): map<Key, string> {
    var rows := if n > 0 then rows[PublishEnabled := if m.enabled then "true" else "false"] else rows;
    var rows := if n > 1 then rows[PublishHost := m.host] else rows;
    var rows := if n > 2 then rows[PublishPath := m.path] else rows;
    var rows := if n > 3 then rows[BasicAuthUser := m.basicAuthUser] else rows;
    var rows := if n > 4 then rows[BasicAuthHash := m.basicAuthHash] else rows;
    if n > 5 then rows[AllowedCIDRs := JoinCIDRs(m.allowedCIDRs)] else rows
  }

  function Stored(rows: map<Key, string>, m: Metrics): map<Key, string> { WrittenUpTo(rows, m, 6) }

  /** What was stored loads back up to the normal form of the list, and so unchanged iff the list is clean. */
  lemma StoredLoads(rows: map<Key, string>, m: Metrics)
    ensures Loaded(Stored(rows, m)) == m.(allowedCIDRs := Parse(JoinCIDRs(m.allowedCIDRs)))
    ensures Loaded(Stored(rows, m)) == m <==> Clean(m.allowedCIDRs)
  {
    SurvivesIffClean(m.allowedCIDRs);
    EmptyText();
  }

  /** With no rows stored the defaults load. */
  lemma DefaultsLoad()
    ensures Loaded(map[]) == Metrics(false, "", "/metrics", "", "", [])
  {
  }

  /** Loading skips the parser on an empty text, which would have given the same. */
  lemma EmptyText()
    ensures Parse("") == []
  {
    assert Split("", ',') == [""] && Kept([""]) == Kept([]) + [];
  }
}
