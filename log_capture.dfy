/** The terminal UI's log buffer: a bounded queue of captured log entries that drops the
    oldest entry to make room. */
module LogCaptures {
  import opened Ints

  datatype LogLevel = Trace | Debug | Info | Warn | Error

  /** `as_str`. */
  function AsStr(l: LogLevel): (r: string)
    ensures |r| == 4 || |r| == 5
  {
    match l
    case Trace => "TRACE"
    case Debug => "DEBUG"
    case Info => "INFO"
    case Warn => "WARN"
    case Error => "ERROR"
  }

  /** Every level has its own name. */
  lemma AsStrInjective(a: LogLevel, b: LogLevel)
    requires AsStr(a) == AsStr(b)
    ensures a == b
  {
    assert AsStr(a)[0] == AsStr(b)[0];
    if AsStr(a)[0] == 'T' || AsStr(a)[0] == 'D' || AsStr(a)[0] == 'I' || AsStr(a)[0] == 'W' {
    } else {
      assert AsStr(a)[1] == AsStr(b)[1];
    }
  }

  datatype LogEntry = LogEntry(timestamp: u64, level: LogLevel, target: string, message: string)

  /** The last `n` items of `s`, or all of them when there are fewer. */
  function LastN<T>(s: seq<T>, n: nat): (r: seq<T>)
    ensures |r| == if |s| < n then |s| else n
  {
    if |s| <= n then s else s[|s| - n..]
  }

  class LogCapture {
    const capacity: nat
    var entries: seq<LogEntry>
    /** Every entry pushed since the buffer was made or last cleared. */
    ghost var pushed: seq<LogEntry>

    /** How many entries the buffer keeps: its capacity, but at least the newest. */
    function Bound(): nat
      reads this
    {
      if capacity == 0 then 1 else capacity
    }

    /** The buffer holds the newest entries pushed, oldest first, as many as it keeps. */
    ghost predicate Valid()
      reads this
    {
      entries == LastN(pushed, Bound())
    }

    /** `new`. */
    constructor (capacity: nat)
      ensures Valid() && this.capacity == capacity && entries == [] && pushed == []
    {
      this.capacity := capacity;
      entries := [];
      pushed := [];
    }

    /** `push`: the oldest entry goes when the buffer is at capacity; the new entry goes at
        the back. */
    method Push(entry: LogEntry)
      requires Valid()
      modifies this
      ensures Valid() && pushed == old(pushed) + [entry]
      ensures entries == (if |old(entries)| >= capacity && |old(entries)| > 0 then old(entries)[1..] else old(entries)) + [entry]
      ensures |entries| <= Bound() && entries[|entries| - 1] == entry
    {
      if |entries| >= capacity && |entries| > 0 {
        entries := entries[1..];
      }
      entries := entries + [entry];
      pushed := pushed + [entry];
      var s, n := pushed, Bound();
      if |s| > n {
        assert s[|s| - n..] == old(pushed)[|old(pushed)| - (n - 1)..] + [entry];
      }
    }

    /** `get_entries`: a copy of the entries, oldest first. */
    function GetEntries(): (r: seq<LogEntry>)
      reads this
      requires Valid()
      ensures r == LastN(pushed, Bound())
      ensures |pushed| > 0 ==> |r| > 0 && r[|r| - 1] == pushed[|pushed| - 1]
    {
      entries
    }

    /** `len`: at most the capacity, or one for a zero capacity. */
    function Len(): (n: nat)
      reads this
      requires Valid()
      ensures n <= Bound() && n == |entries|
    {
      |entries|
    }

    /** `is_empty`: nothing has been pushed since the last clear. */
    function IsEmpty(): (r: bool)
      reads this
      requires Valid()
      ensures r <==> Len() == 0
      ensures r <==> pushed == []
    {
      |entries| == 0
    }

    /** `clear`. */
    method Clear()
      modifies this
      ensures Valid() && entries == [] && pushed == []
    {
      entries := [];
      pushed := [];
    }
  }
}
