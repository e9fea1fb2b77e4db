/**
 * History compaction: keep the trailing records of a history file.
 */
module Utils {
  import opened Storage

  function Min(a: int, b: int): int { if a <= b then a else b }

  /** `r` is a trailing part of `s`, in the original order. */
  ghost predicate IsSuffix<T>(r: seq<T>, s: seq<T>)
  {
    |r| <= |s| && r == s[|s| - |r|..]
  }

  /**
   * Python's `s[-n:]` for any integer `n`: the slice start `-n` counts from
   * the end when negative and is clamped to the bounds of `s`. Since `-0`
   * is `0`, `n == 0` keeps everything; a negative `n` drops the first `-n`
   * elements.
   */
  function KeepLast<T>(s: seq<T>, n: int): (r: seq<T>)
    ensures IsSuffix(r, s)
    ensures n > 0 ==> |r| == Min(|s|, n)
    ensures n == 0 ==> r == s
    ensures n < 0 ==> |r| == |s| - Min(-n, |s|)
    ensures 0 <= n && |s| <= n ==> r == s
  {
    var start := if n > 0 then (if n <= |s| then |s| - n else 0)
                 else Min(-n, |s|);
    s[start..]
  }

  /** Trimming to the last `n >= 0` elements a second time changes nothing. */
  lemma KeepLastIdempotent<T>(s: seq<T>, n: int)
    requires n >= 0
    ensures KeepLast(KeepLast(s, n), n) == KeepLast(s, n)
  {
  }

  /** The file contents after one compactar_data_json(path, n). */
  function Compacted(s: Stored, n: int, writeOk: bool): (r: Stored)
    ensures s.Records? && writeOk ==> r.Records? && IsSuffix(r.items, s.items)
    ensures s.Records? && writeOk && n > 0 ==> |r.items| == Min(|s.items|, n)
    ensures s.Records? && n == 0 ==> r == s
    ensures !s.Records? || !writeOk ==> r == s
  {
    match s
    case Records(items) => Persist(s, KeepLast(items, n), writeOk)
    case _ => s
  }

  /**
   * Compacting twice leaves the file as one compaction whose write succeeds
   * when either write does: once a compaction has been written, another one
   * changes nothing.
   */
  lemma {:induction false} CompactedIdempotent(s: Stored, n: int, w1: bool, w2: bool)
    requires n >= 0
    ensures Compacted(Compacted(s, n, w1), n, w2) == Compacted(s, n, w1 || w2)
  {
    if s.Records? && w1 {
      var kept := KeepLast(s.items, n);
      assert Compacted(s, n, w1) == Records(kept);
      KeepLastIdempotent(s.items, n);
      assert Compacted(Records(kept), n, w2) == Persist(Records(kept), kept, w2);
    }
  }

  /**
   * compactar_data_json: read the list, keep its last `maxRegistros` records
   * and rewrite the file. Every failure (missing, undecodable or unreadable
   * file, failed write) is reported and swallowed: the file is left as it
   * was and nothing reaches the caller.
   */
  method CompactDataJson(file: JsonFile, maxRegistros: int, writeOk: bool)
    modifies file
    ensures file.contents == Compacted(old(file.contents), maxRegistros, writeOk)
  {
    match file.contents {
      case Records(dados) =>
        var kept := KeepLast(dados, maxRegistros);
        if writeOk {
          file.contents := Records(kept);
        }
      case _ =>
        // the read failed: the error is reported and the file is left as it was
    }
  }
}
