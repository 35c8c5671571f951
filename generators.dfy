/** Reading the `user_data` table page by page. The table is a fixed
    sequence of rows in the order the server returns them; the query has
    no ORDER BY, so that order is taken as given. */
module LazyPaginate {
  import Seqs

  function Min(a: int, b: int): int
  {
    if a <= b then a else b
  }

  /** `paginate_users(page_size, offset)`: `LIMIT page_size OFFSET offset`,
      the rows from position `offset` on, at most `page_size` of them. */
  function PaginateUsers<T>(table: seq<T>, pageSize: nat, offset: nat): (page: seq<T>)
    ensures |page| == if offset < |table| then Min(pageSize, |table| - offset) else 0
    ensures offset < |table| ==> page == table[offset..offset + |page|]
  {
    if offset < |table| then table[offset..offset + Min(pageSize, |table| - offset)] else []
  }

  /** The offset of page k, `k * page_size`. */
  function Mul(k: nat, pageSize: nat): nat
  {
    k * pageSize
  }

  /** Pages read so far: page k is the non-empty fetch at offset k·page_size. */
  ghost predicate PagesRead<T>(table: seq<T>, pageSize: nat, pages: seq<seq<T>>)
  {
    forall k | 0 <= k < |pages| :: pages[k] == PaginateUsers(table, pageSize, Mul(k, pageSize)) && pages[k] != []
  }

  /** `lazy_paginate(page_size)`: the pages it yields, in order. Pages are
      fetched at offsets 0, page_size, 2·page_size, … until the first
      empty one, which is not yielded. */
  method LazyPaginate<T>(table: seq<T>, pageSize: nat) returns (pages: seq<seq<T>>)
    ensures forall k | 0 <= k < |pages| :: pages[k] == PaginateUsers(table, pageSize, Mul(k, pageSize))
    ensures forall k | 0 <= k < |pages| :: pages[k] != [] && |pages[k]| <= pageSize
    ensures PaginateUsers(table, pageSize, Mul(|pages|, pageSize)) == []
    ensures pageSize > 0 ==> Seqs.Flatten(pages) == table
    ensures pageSize == 0 ==> pages == []
  {
    var offset := 0;
    pages := [];
    while true
      invariant offset == Mul(|pages|, pageSize)
      invariant PagesRead(table, pageSize, pages)
      invariant Seqs.Flatten(pages) == table[..Min(offset, |table|)]
      invariant pageSize == 0 ==> pages == []
      decreases |table| - Min(offset, |table|)
    {
      var page := PaginateUsers(table, pageSize, offset);
      if page == [] {
        assert Min(offset, |table|) == |table| || pageSize == 0;
        assert table[..|table|] == table;
        break;
      }
      NextPage(table, pages, pageSize, offset, page);
      pages := pages + [page];
      offset := offset + pageSize;
    }
  }

  /** One round of `lazy_paginate`: a non-empty page fetched at the next
      offset continues the pages read so far. */
  lemma NextPage<T>(table: seq<T>, pages: seq<seq<T>>, pageSize: nat, offset: nat, page: seq<T>)
    requires offset == Mul(|pages|, pageSize)
    requires PagesRead(table, pageSize, pages)
    requires Seqs.Flatten(pages) == table[..Min(offset, |table|)]
    requires page == PaginateUsers(table, pageSize, offset) && page != []
    ensures offset + pageSize == Mul(|pages + [page]|, pageSize)
    ensures PagesRead(table, pageSize, pages + [page])
    ensures Seqs.Flatten(pages + [page]) == table[..Min(offset + pageSize, |table|)]
    ensures pageSize > 0 && offset < |table|
  {
    assert |pages + [page]| == |pages| + 1;
    assert Mul(|pages|, pageSize) + pageSize == Mul(|pages| + 1, pageSize);
    PagesReadExtend(table, pageSize, pages, page);
    PagesJoin(table, pages, pageSize, offset, page);
  }

  lemma PagesReadExtend<T>(table: seq<T>, pageSize: nat, pages: seq<seq<T>>, page: seq<T>)
    requires PagesRead(table, pageSize, pages)
    requires page == PaginateUsers(table, pageSize, Mul(|pages|, pageSize)) && page != []
    ensures PagesRead(table, pageSize, pages + [page])
  {
    var next := pages + [page];
    forall k | 0 <= k < |next|
      ensures next[k] == PaginateUsers(table, pageSize, Mul(k, pageSize)) && next[k] != []
    {
      if k < |pages| {
        assert next[k] == pages[k];
      } else {
        assert k == |pages| && next[k] == page;
      }
    }
  }

  lemma PagesJoin<T>(table: seq<T>, pages: seq<seq<T>>, pageSize: nat, offset: nat, page: seq<T>)
    requires Seqs.Flatten(pages) == table[..Min(offset, |table|)]
    requires page == PaginateUsers(table, pageSize, offset) && page != []
    ensures Seqs.Flatten(pages + [page]) == table[..Min(offset + pageSize, |table|)]
  {
    Seqs.FlattenAppend(pages, page);
    assert offset + |page| == Min(offset + pageSize, |table|);
    assert table[..offset] + table[offset..offset + |page|] == table[..offset + |page|];
  }
}

/** Streaming `user_data` in fixed-size batches and printing the users
    older than 25. The cursor is a position in the table's rows. */
module BatchProcessing {
  import Seqs

  /** A `user_data` row; `age` is a DECIMAL with no fractional digits. */
  datatype UserRow = UserRow(userId: string, name: string, email: string, age: int)

  /** `cursor.fetchmany(size)` with the cursor at `position`: the next
      `size` rows, fewer at the end of the table. */
  function FetchMany<T>(rows: seq<T>, position: nat, size: nat): (batch: seq<T>)
    requires position <= |rows|
    ensures |batch| == if size <= |rows| - position then size else |rows| - position
    ensures batch == rows[position..position + |batch|]
  {
    if size <= |rows| - position then rows[position..position + size] else rows[position..]
  }

  /** `stream_users_in_batches(batch_size)`: the batches it yields, in
      order, until the first empty fetch. */
  method StreamUsersInBatches<T>(rows: seq<T>, batchSize: nat) returns (batches: seq<seq<T>>)
    requires batchSize >= 1
    ensures forall k | 0 <= k < |batches| :: batches[k] != [] && |batches[k]| <= batchSize
    ensures forall k | 0 <= k < |batches| - 1 :: |batches[k]| == batchSize
    ensures Seqs.Flatten(batches) == rows
  {
    var position := 0;
    batches := [];
    while true
      invariant position <= |rows|
      invariant Seqs.Flatten(batches) == rows[..position]
      invariant forall k | 0 <= k < |batches| :: batches[k] != [] && |batches[k]| <= batchSize
      invariant forall k | 0 <= k < |batches| :: |batches[k]| == batchSize || (k == |batches| - 1 && position == |rows|)
      decreases |rows| - position
    {
      var batch := FetchMany(rows, position, batchSize);
      if batch == [] {
        break;
      }
      NextFetch(rows, batches, position, batchSize, batch);
      batches := batches + [batch];
      position := position + |batch|;
    }
  }

  /** The filter of `batch_processing`: `user['age'] > 25`. */
  predicate OverTwentyFive(user: UserRow)
  {
    user.age > 25
  }

  /** `batch_processing(batch_size)`: the rows it prints, in order. */
  method BatchProcessing(rows: seq<UserRow>, batchSize: nat) returns (printed: seq<UserRow>)
    requires batchSize >= 1
    ensures printed == Seqs.Filter(rows, OverTwentyFive)
  {
    var batches := StreamUsersInBatches(rows, batchSize);
    printed := [];
    var i := 0;
    while i < |batches|
      invariant i <= |batches|
      invariant printed == Seqs.Filter(Seqs.Flatten(batches[..i]), OverTwentyFive)
    {
      var batch := batches[i];
      ghost var before := Seqs.Flatten(batches[..i]);
      var j := 0;
      assert before + batch[..0] == before;
      while j < |batch|
        invariant j <= |batch|
        invariant printed == Seqs.Filter(before + batch[..j], OverTwentyFive)
      {
        FilterOneMore(before, batch, j);
        if OverTwentyFive(batch[j]) {
          printed := printed + [batch[j]];
        }
        j := j + 1;
      }
      assert batch[..j] == batch;
      NextBatch(batches, i);
      i := i + 1;
    }
    assert batches[..i] == batches;
  }

  /** Looking at one more user of the batch prints it exactly when it is
      over 25. */
  lemma FilterOneMore(before: seq<UserRow>, batch: seq<UserRow>, j: nat)
    requires j < |batch|
    ensures Seqs.Filter(before + batch[..j + 1], OverTwentyFive)
            == Seqs.Filter(before + batch[..j], OverTwentyFive) + (if OverTwentyFive(batch[j]) then [batch[j]] else [])
  {
    assert before + batch[..j + 1] == (before + batch[..j]) + [batch[j]];
    Seqs.FilterAppend(before + batch[..j], [batch[j]], OverTwentyFive);
    assert [batch[j]][1..] == [];
  }

  /** One round of `stream_users_in_batches`: a non-empty batch fetched at
      the cursor continues the batches yielded so far, and only the last
      batch can be short. */
  lemma NextFetch<T>(rows: seq<T>, batches: seq<seq<T>>, position: nat, batchSize: nat, batch: seq<T>)
    requires batchSize >= 1 && position <= |rows|
    requires Seqs.Flatten(batches) == rows[..position]
    requires forall k | 0 <= k < |batches| :: batches[k] != [] && |batches[k]| <= batchSize
    requires forall k | 0 <= k < |batches| :: |batches[k]| == batchSize || (k == |batches| - 1 && position == |rows|)
    requires batch == FetchMany(rows, position, batchSize) && batch != []
    ensures position + |batch| <= |rows|
    ensures Seqs.Flatten(batches + [batch]) == rows[..position + |batch|]
    ensures forall k | 0 <= k < |batches + [batch]| :: (batches + [batch])[k] != [] && |(batches + [batch])[k]| <= batchSize
    ensures forall k | 0 <= k < |batches + [batch]| ::
      |(batches + [batch])[k]| == batchSize || (k == |batches + [batch]| - 1 && position + |batch| == |rows|)
  {
    Seqs.FlattenAppend(batches, batch);
    assert rows[..position] + batch == rows[..position + |batch|];
  }

  /** Finishing batch i extends the rows seen by exactly that batch. */
  lemma NextBatch<T>(batches: seq<seq<T>>, i: nat)
    requires i < |batches|
    ensures Seqs.Flatten(batches[..i + 1]) == Seqs.Flatten(batches[..i]) + batches[i]
  {
    assert batches[..i + 1] == batches[..i] + [batches[i]];
    Seqs.FlattenAppend(batches[..i], batches[i]);
  }
}
