/**
 * The missed-block history of graphing/storage.py: two parallel lists,
 * timestamps and missed-block counts, appended to once per poll and trimmed
 * to their newest MAX_ENTRIES elements whenever there are more timestamps
 * than that. Reading and writing history.json is left out; `History` holds
 * the lists the file would contain.
 */
module HistoryStore {
  import opened Util

  /** MAX_ENTRIES: about a week of entries at one per minute. */
  const MaxEntries: nat := 30 * 24 * 7

  /** The two lists of the history dictionary. */
  datatype Series = Series(timestamps: seq<int>, missedBlocks: seq<int>)

  /** Both lists have one entry per poll. */
  predicate Aligned(h: Series) {
    |h.timestamps| == |h.missedBlocks|
  }

  /**
   * The trim in save_history: when there are more than MAX_ENTRIES timestamps,
   * both lists become their newest MAX_ENTRIES elements (a Python slice [-n:],
   * which keeps a shorter list whole); otherwise nothing changes.
   */
  function SaveTrim(h: Series): (r: Series)
    ensures |r.timestamps| <= MaxEntries
    ensures |h.timestamps| <= MaxEntries ==> r == h
    ensures |r.timestamps| <= |h.timestamps| && |r.missedBlocks| <= |h.missedBlocks|
    ensures Aligned(h) ==> Aligned(r)
    ensures |h.timestamps| > MaxEntries ==> |r.timestamps| == MaxEntries
    ensures |h.timestamps| > MaxEntries ==>
              |r.missedBlocks| == if |h.missedBlocks| > MaxEntries then MaxEntries else |h.missedBlocks|
  {
    if |h.timestamps| > MaxEntries then
      Series(KeepLast(h.timestamps, MaxEntries), KeepLast(h.missedBlocks, MaxEntries))
    else h
  }

  /** append_history: add one entry to each list, then save (which trims). */
  function AppendEntry(h: Series, timestamp: int, missed: int): (r: Series)
    ensures |r.timestamps| > 0 && |r.missedBlocks| > 0
  {
    SaveTrim(Series(h.timestamps + [timestamp], h.missedBlocks + [missed]))
  }

  /** After a save, each list is the newest part of what it was, in order. */
  lemma SaveTrimKeepsNewest(h: Series)
    ensures var r := SaveTrim(h);
            && r.timestamps == h.timestamps[|h.timestamps| - |r.timestamps|..]
            && r.missedBlocks == h.missedBlocks[|h.missedBlocks| - |r.missedBlocks|..]
  {
    KeepLastIsSuffix(h.timestamps, MaxEntries);
    KeepLastIsSuffix(h.missedBlocks, MaxEntries);
    if |h.timestamps| <= MaxEntries {
      assert h.timestamps[0..] == h.timestamps;
      assert h.missedBlocks[0..] == h.missedBlocks;
    }
  }

  /** The newest entry is the last element of each list after an append. */
  lemma AppendNewestLast(h: Series, timestamp: int, missed: int)
    ensures var r := AppendEntry(h, timestamp, missed);
            r.timestamps[|r.timestamps| - 1] == timestamp && r.missedBlocks[|r.missedBlocks| - 1] == missed
  {
    var full := Series(h.timestamps + [timestamp], h.missedBlocks + [missed]);
    SaveTrimKeepsNewest(full);
  }

  /** Below the limit an append only adds the entry; nothing is dropped. */
  lemma AppendBelowLimit(h: Series, timestamp: int, missed: int)
    requires |h.timestamps| < MaxEntries
    ensures AppendEntry(h, timestamp, missed) == Series(h.timestamps + [timestamp], h.missedBlocks + [missed])
  {
  }

  /** At the limit an append drops exactly the oldest entry of each aligned list. */
  lemma AppendAtLimit(h: Series, timestamp: int, missed: int)
    requires Aligned(h) && |h.timestamps| == MaxEntries
    ensures AppendEntry(h, timestamp, missed) == Series(h.timestamps[1..] + [timestamp], h.missedBlocks[1..] + [missed])
  {
    var full := Series(h.timestamps + [timestamp], h.missedBlocks + [missed]);
    assert full.timestamps[1..] == h.timestamps[1..] + [timestamp];
    assert full.missedBlocks[1..] == h.missedBlocks[1..] + [missed];
  }

  /**
   * Aligned lists stay aligned: the same number of entries, and entry i of
   * the new lists is one pair (timestamp, count) that was appended together.
   */
  lemma AppendKeepsPairs(h: Series, timestamp: int, missed: int)
    requires Aligned(h)
    ensures var r := AppendEntry(h, timestamp, missed);
            var ts, ms := h.timestamps + [timestamp], h.missedBlocks + [missed];
            && Aligned(r)
            && forall i :: 0 <= i < |r.timestamps| ==>
                 r.timestamps[i] == ts[|ts| - |r.timestamps| + i] && r.missedBlocks[i] == ms[|ms| - |r.timestamps| + i]
  {
    var full := Series(h.timestamps + [timestamp], h.missedBlocks + [missed]);
    SaveTrimKeepsNewest(full);
  }

  /** An aligned history never grows past MAX_ENTRIES, however many entries are appended. */
  lemma AppendBounded(h: Series, timestamp: int, missed: int)
    requires Aligned(h)
    ensures var r := AppendEntry(h, timestamp, missed);
            |r.timestamps| <= MaxEntries && |r.missedBlocks| <= MaxEntries
            && (|h.timestamps| >= MaxEntries ==> |r.timestamps| == MaxEntries)
  {
  }

  /** The history dictionary, updated in place. */
  class History {
    var timestamps: seq<int>
    var missedBlocks: seq<int>

    /** load_history: the lists read from disk, or two empty lists when there is no file. */
    constructor(loaded: Option<Series>)
      ensures loaded.None? ==> timestamps == [] && missedBlocks == []
      ensures loaded.Some? ==> timestamps == loaded.value.timestamps && missedBlocks == loaded.value.missedBlocks
    {
      if loaded.Some? {
        timestamps := loaded.value.timestamps;
        missedBlocks := loaded.value.missedBlocks;
      } else {
        timestamps := [];
        missedBlocks := [];
      }
    }

    function Contents(): Series
      reads this
    {
      Series(timestamps, missedBlocks)
    }

    /** save_history without the file write: trim both lists when there are too many timestamps. */
    method Save()
      modifies this
      ensures Contents() == SaveTrim(old(Contents()))
    {
      if |timestamps| > MaxEntries {
        timestamps := timestamps[|timestamps| - MaxEntries..];
        missedBlocks := KeepLast(missedBlocks, MaxEntries);
      }
    }

    /** append_history: append to both lists, then save. */
    method Append(timestamp: int, missed: int)
      modifies this
      ensures Contents() == AppendEntry(old(Contents()), timestamp, missed)
    {
      timestamps := timestamps + [timestamp];
      missedBlocks := missedBlocks + [missed];
      Save();
    }
  }
}
