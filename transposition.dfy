/*
 * The transposition cache (algorithms/transposition.py): a last-write-wins
 * map from (FEN, remaining depth) to a (score, best move) pair. The source
 * keeps it in a module-level dict; here it is an object the search is given.
 * Entries carry no exact/lower/upper tag, exactly as in the source.
 */
module Transposition {
  import opened ChessTypes
  import opened RulesEngine

  type Key = (string, int)

  datatype Entry = Entry(value: int, move: Option<Move>)

  type Table = map<Key, Entry>

  /** dict.get: the entry stored under `k`, if any. */
  function Get(t: Table, k: Key): (r: Option<Entry>)
    ensures r.Some? <==> k in t
    ensures r.Some? ==> r.value == t[k]
  {
    if k in t then Some(t[k]) else None
  }

  /** dict assignment: the entry under `k` is replaced, every other key keeps its entry. */
  function Put(t: Table, k: Key, e: Entry): (t': Table)
    ensures Get(t', k) == Some(e)
    ensures forall k' :: k' != k ==> Get(t', k') == Get(t, k')
    ensures t'.Keys == t.Keys + {k}
  {
    t[k := e]
  }

  /** The table after a sequence of stores into an empty table. */
  function Replay(stores: seq<(Key, Entry)>): Table {
    if stores == [] then map[]
    else
      var last := stores[|stores| - 1];
      Put(Replay(stores[..|stores| - 1]), last.0, last.1)
  }

  /** A key hits after a sequence of stores exactly when it was stored,
      and then it holds the entry of the last store under that key. */
  lemma {:induction false} ReplayLastWriteWins(stores: seq<(Key, Entry)>, k: Key)
    ensures Get(Replay(stores), k).None? <==> forall i :: 0 <= i < |stores| ==> stores[i].0 != k
    ensures forall i :: 0 <= i < |stores| && stores[i].0 == k
               && (forall j :: i < j < |stores| ==> stores[j].0 != k)
               ==> Get(Replay(stores), k) == Some(stores[i].1)
  {
    if stores != [] {
      var n := |stores| - 1;
      var prefix := stores[..n];
      ReplayLastWriteWins(prefix, k);
      assert forall i :: 0 <= i < n ==> prefix[i] == stores[i];
    }
  }

  /** Same FEN, different depths: two independent entries. */
  lemma DepthsAreIndependent(t: Table, fen: string, d1: int, d2: int, e: Entry)
    requires d1 != d2
    ensures Get(Put(t, (fen, d1), e), (fen, d2)) == Get(t, (fen, d2))
  {
  }

  /** Storing twice under one key keeps only the second entry. */
  lemma SecondStoreWins(t: Table, k: Key, e1: Entry, e2: Entry)
    ensures Put(Put(t, k, e1), k, e2) == Put(t, k, e2)
  {
  }

  /** transposition_table together with lookup and store. */
  class TranspositionTable {
    var entries: Table

    constructor ()
      ensures entries == map[]
    {
      entries := map[];
    }

    /** lookup(board, depth) (algorithms/transposition.py:3-5). */
    function Lookup(board: Board, depth: int): Option<Entry>
      reads this, board
    {
      Get(entries, (board.Fen(), depth))
    }

    /** store(board, depth, value, best_move) (algorithms/transposition.py:7-9). */
    method Store(board: Board, depth: int, value: int, move: Option<Move>)
      modifies this
      ensures entries == Put(old(entries), (board.Fen(), depth), Entry(value, move))
      ensures Lookup(board, depth) == Some(Entry(value, move))
      ensures old(entries).Keys <= entries.Keys
    {
      entries := entries[(board.Fen(), depth) := Entry(value, move)];
    }
  }
}
