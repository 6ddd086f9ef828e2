/** Rows of the database, what one build gets to see of them, and the bytes it produces. */
module Records {
  import opened Wrappers

  /** The fields of models.Proxy that the service code reads or overwrites; `other` stands for
      the ones it only passes on. An empty string is an absent configuration. */
  datatype Proxy = Proxy(kind: string, name: string, hostname: string, active: bool, sslForced: bool,
                         createdBy: int, upstreams: string, loadBalancing: string, customHeaders: string,
                         redirectConfig: string, staticConfig: string, other: string)

  /** The tables that buildConfigBytes reads. Proxies and assignments go by proxy id. */
  datatype Db = Db(proxies: map<int, Proxy>, aclGroups: seq<string>, assignments: map<int, seq<string>>,
                   l4Proxies: seq<string>, settings: map<string, string>)

  /** The reads of one build that fail without failing it: ACL groups, the assignments of some proxies,
      layer-4 proxies and some settings, which are then taken as absent. */
  datatype Losses = Losses(aclGroups: bool, assignments: set<int>, l4Proxies: bool, settings: set<string>)

  const NO_LOSS := Losses(false, {}, false, {})

  /** What is left of the database for a build with these losses. */
  function View(db: Db, lost: Losses): Db {
    Db(db.proxies, if lost.aclGroups then [] else db.aclGroups, db.assignments - lost.assignments,
       if lost.l4Proxies then [] else db.l4Proxies, db.settings - lost.settings)
  }

  /** No failed read concerns anything that is stored. */
  predicate LosesNothing(db: Db, lost: Losses) {
    && (lost.aclGroups ==> db.aclGroups == []) && (lost.l4Proxies ==> db.l4Proxies == [])
    && db.assignments.Keys !! lost.assignments && db.settings.Keys !! lost.settings
  }

  lemma WholeMapIff<K, V>(m: map<K, V>, lost: set<K>)
    ensures m - lost == m <==> m.Keys !! lost
  {
    assert (m - lost).Keys == m.Keys - lost;
    assert m.Keys !! lost ==> m - lost == m;
  }

  lemma WholeViewIff(db: Db, lost: Losses)
    ensures View(db, lost) == db <==> LosesNothing(db, lost)
  {
    WholeMapIff(db.assignments, lost.assignments);
    WholeMapIff(db.settings, lost.settings);
  }

  type Bytes = string

  /** Which bytes are a build of which tables. It is a relation, since the order of the layer-4 TLS
      hostnames follows a Go map iteration. */
  type Builder = (Db, Bytes) -> bool

  /** Tables that share one build share all of them. The builder is of this kind, because its bytes are a
      function of the tables up to an order that is free (`FreeOrderIsCoherent`). */
  ghost predicate Coherent(builds: Builder) {
    forall db, db', cfg, cfg' :: builds(db, cfg) && builds(db', cfg) && builds(db, cfg') ==> builds(db', cfg')
  }

  /** Bytes that agree in normal form are builds of the same tables. */
  lemma FreeOrderIsCoherent(builds: Builder, normal: Bytes -> Bytes, canonical: Db -> Bytes)
    requires forall db, cfg :: builds(db, cfg) <==> normal(cfg) == canonical(db)
    ensures Coherent(builds)
  {
  }

  /** What is left after the losses has the same builds as the whole. */
  ghost predicate LossUnseen(builds: Builder, db: Db, lost: Losses) {
    forall cfg :: builds(View(db, lost), cfg) <==> builds(db, cfg)
  }

  /** The file as a sync with these losses leaves it: a build of what could be read. It is a build of the
      database if the losses do not show in builds, as when nothing was lost, and for a coherent builder
      only then. */
  ghost predicate AsRead(builds: Builder, db: Db, lost: Losses, file: Option<Bytes>) {
    && file.Some? && builds(View(db, lost), file.value)
    && (LosesNothing(db, lost) ==> builds(db, file.value))
    && (LossUnseen(builds, db, lost) ==> builds(db, file.value))
    && (Coherent(builds) ==> (builds(db, file.value) <==> LossUnseen(builds, db, lost)))
  }

  lemma BuiltIsAsRead(builds: Builder, db: Db, lost: Losses, cfg: Bytes)
    requires builds(View(db, lost), cfg)
    ensures AsRead(builds, db, lost, Some(cfg))
    ensures LosesNothing(db, lost) ==> LossUnseen(builds, db, lost)
  {
    WholeViewIff(db, lost);
  }
}
