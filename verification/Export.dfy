/** Paged export: the loops of `ExportProxies` and `ExportL4Proxies`, which share their shape. */
module Export {
  import opened Wrappers

  const PAGE_LIMIT := 100

  /** `List` with offset and limit on a fixed, filtered and ordered list of rows. */
  function PageOf<T>(rows: seq<T>, page: nat, limit: nat): seq<T>
    requires page > 0
  {
    var offset := (page - 1) * limit;
    if offset >= |rows| then [] else if offset + limit >= |rows| then rows[offset..] else rows[offset..offset + limit]
  }

  function Mapped<T, E>(f: T -> E, rows: seq<T>): seq<E> {
    seq(|rows|, i requires 0 <= i < |rows| => f(rows[i]))
  }

  /** The page is one that the export reads: the first, or one that begins before the last row. */
  predicate IsRead(page: nat, rows: nat) { page == 1 || (page > 1 && (page - 1) * PAGE_LIMIT < rows) }

  /** Every row once and in order, whatever the number of rows, unless a page that is read fails. */
  method ExportAll<T, E>(rows: seq<T>, f: T -> E, failingPages: set<nat>) returns (r: Option<seq<E>>)
    ensures r.Some? ==> |r.value| == |rows| && forall i :: 0 <= i < |rows| ==> r.value[i] == f(rows[i])
    ensures r.None? <==> exists p :: p in failingPages && IsRead(p, |rows|)
  {
    var exports: seq<E> := [];
    var page: nat := 1;
    while true
      invariant IsRead(page, |rows|) && forall p :: 0 < p < page ==> p !in failingPages
      invariant exports == Mapped(f, rows[..(page - 1) * PAGE_LIMIT])
      decreases |rows| - (page - 1) * PAGE_LIMIT
    {
      if page in failingPages {
        return None;
      }
      var got, total := PageOf(rows, page, PAGE_LIMIT), |rows|;
      ghost var start := |exports|;
      for i := 0 to |got|
        invariant exports == Mapped(f, rows[..start]) + Mapped(f, got[..i])
      {
        exports := exports + [f(got[i])];
      }
      assert got[..|got|] == got;
      assert exports == Mapped(f, rows[..start + |got|]);
      if |got| == 0 || |exports| >= total {
        assert rows[..|rows|] == rows;
        break;
      }
      page := page + 1;
    }
    return Some(exports);
  }
}
