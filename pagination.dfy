/** The repository's process-wide pagination setting and the offset/limit
    policy that collection reads derive from it. */
module Pagination {
  import opened Basics

  /** The stored setting `{Limit, Page, Sort}`. `sort` is carried along but
      plays no part in the offset/limit policy. */
  datatype Pagination = Pagination(limit: Int64, page: Int64, sort: string)

  const MaxPageSize: int := 100
  const DefaultPageSize: int := 10

  /** Page 0 means the first page; every other page number is kept. */
  function NormalPage(page: Int64): (r: Int64)
    ensures page == 0 ==> r == 1
    ensures page != 0 ==> r == page
    ensures r != 0
  {
    if page == 0 then 1 else page
  }

  /** Page size capped at 100, defaulting to 10 when 0 or negative. */
  function NormalPageSize(limit: Int64): (r: Int64)
    ensures 1 <= r <= MaxPageSize
    ensures 1 <= limit <= MaxPageSize ==> r == limit
  {
    if limit > MaxPageSize then MaxPageSize
    else if limit <= 0 then DefaultPageSize
    else limit
  }

  /** The `(offset, limit)` pair a collection read uses for a setting, with
      Go's 64-bit wrap-around on the offset computation. */
  function Params(p: Pagination): (r: (Int64, Int64))
    ensures 1 <= r.1 <= MaxPageSize
  {
    var size := NormalPageSize(p.limit);
    (Wrap64(Wrap64(NormalPage(p.page) - 1) * size), size)
  }

  /** The package-level `tablePagination`: absent until the first call of
      `SetPagination`, then overwritten by every call. */
  class PaginationState {
    var stored: Option<Pagination>

    constructor ()
      ensures stored == None
    {
      stored := None;
    }

    /** Replaces all three fields of the stored setting. */
    method SetPagination(limit: Int64, page: Int64, sort: string)
      modifies this
      ensures stored == Some(Pagination(limit, page, sort))
    {
      stored := Some(Pagination(limit, page, sort));
    }

    /** Reads the stored setting and normalises page and page size step by
        step. The Go code dereferences a nil pointer when nothing has been
        stored yet, hence the precondition. */
    method PaginationParams() returns (offset: Int64, limit: Int64)
      requires stored.Some?
      ensures (offset, limit) == Params(stored.value)
      ensures 1 <= limit <= MaxPageSize
    {
      var page := stored.value.page;
      if page == 0 {
        page := 1;
      }
      var pageSize := stored.value.limit;
      if pageSize > MaxPageSize {
        pageSize := MaxPageSize;
      } else if pageSize <= 0 {
        pageSize := DefaultPageSize;
      }
      offset := Wrap64(Wrap64(page as int - 1) * pageSize);
      limit := pageSize;
    }
  }

  /** Sizes above 100 give 100, sizes of 0 or less give 10, sizes in
      1..100 pass through unchanged. */
  lemma PageSizePolicy(limit: Int64)
    ensures limit > MaxPageSize ==> NormalPageSize(limit) == MaxPageSize
    ensures limit <= 0 ==> NormalPageSize(limit) == DefaultPageSize
    ensures 1 <= limit <= MaxPageSize ==> NormalPageSize(limit) == limit
  {
  }

  /** Page 0 gives exactly the same offset and limit as page 1. */
  lemma PageZeroIsPageOne(limit: Int64, sort: string)
    ensures Params(Pagination(limit, 0, sort)) == Params(Pagination(limit, 1, sort))
  {
  }

  /** The sort expression never influences offset or limit. */
  lemma SortIsIgnored(p: Pagination, sort: string)
    ensures Params(p.(sort := sort)) == Params(p)
  {
  }

  /** Multiplying by a non-negative factor keeps the order. */
  lemma MulMonotone(a: int, b: int, c: nat)
    requires a <= b
    ensures a * c <= b * c
  {
    var d := b - a;
    assert d * c >= 0;
    assert b * c == a * c + d * c;
  }

  /** For a positive page whose offset product fits in int64, the offset
      skips exactly the preceding pages: it is non-negative and a multiple
      of the limit. */
  lemma PositivePageOffset(p: Pagination)
    requires 1 <= p.page
    requires (p.page - 1) * NormalPageSize(p.limit) <= MaxInt64
    ensures Params(p).0 == (p.page - 1) * Params(p).1
    ensures Params(p).0 >= 0
    ensures Params(p).0 % Params(p).1 == 0
  {
    var size := NormalPageSize(p.limit);
    var k := p.page - 1;
    MulMonotone(0, k, size);
    assert Params(p) == (k * size, size);
    MultipleOfSize(k, size);
  }

  /** A non-negative multiple of a positive size leaves remainder 0. */
  lemma MultipleOfSize(k: nat, size: int)
    requires size >= 1
    ensures (k * size) % size == 0
  {
    var y := k * size;
    var d, m := y / size, y % size;
    assert y == size * d + m && 0 <= m < size;
    var e := k - d;
    assert size * e == m by {
      assert size * k == size * d + m;
    }
  }

  /** Negative pages are not normalised: whenever the offset product fits
      in int64, the offset is negative. */
  lemma NegativePageOffset(p: Pagination)
    requires p.page < 0
    requires MinInt64 <= (p.page - 1) * NormalPageSize(p.limit)
    ensures Params(p).0 == (p.page - 1) * Params(p).1
    ensures Params(p).0 < 0
  {
    var size := NormalPageSize(p.limit);
    var k := p.page - 1;
    MulMonotone(1, size, -k);
    assert k * size == -(size * -k);
    assert MinInt64 <= k;
    assert Params(p) == (k * size, size);
  }

  /** Page numbers whose offset product leaves the int64 range wrap
      around: the largest page with page size 10 reads from offset -20. */
  lemma HugePageWrapsOffset(sort: string)
    ensures Params(Pagination(10, MaxInt64, sort)) == (-20, 10)
  {
  }

  /** The smallest page with page size 1 wraps the other way, to the
      largest offset. */
  lemma MinPageWrapsOffset(sort: string)
    ensures Params(Pagination(1, MinInt64, sort)) == (MaxInt64, 1)
  {
  }

  /** The last setting stored is the one the next read uses (sequential
      use; the race between concurrent requests is not modelled). */
  method LastWriteWins(state: PaginationState, sort: string)
    returns (first: (Int64, Int64), second: (Int64, Int64))
    modifies state
    ensures first == (0, DefaultPageSize)
    ensures second == (50, 25)
    ensures state.stored == Some(Pagination(25, 3, sort))
  {
    state.SetPagination(500, 3, sort);
    state.SetPagination(0, 0, "");
    var offset, limit := state.PaginationParams();
    first := (offset, limit);
    state.SetPagination(25, 3, sort);
    offset, limit := state.PaginationParams();
    second := (offset, limit);
  }
}
