/** The tunnel provider's in-memory log: a list trimmed in place to its newest 120 lines. */
module DebugLog {
  import opened Bytes

  const MAX_LINES := 120

  function Newest(history: seq<Text>): (r: seq<Text>)
    ensures |r| <= |history| && r == history[|history| - |r|..]
    ensures |r| <= MAX_LINES && (|r| < MAX_LINES ==> r == history)
  {
    if |history| <= MAX_LINES then history else history[|history| - MAX_LINES..]
  }

  class DebugStore {
    var lines: seq<Text>
    ghost var history: seq<Text>

    ghost predicate Valid()
      reads this
    {
      lines == Newest(history)
    }

    constructor ()
      ensures Valid() && history == []
    {
      lines, history := [], [];
    }

    /** However many lines were ever appended, the newest 120 remain, in order. */
    method Append(timestamp: Text, message: Text)
      requires Valid()
      modifies this
      ensures Valid() && history == old(history) + [timestamp + " " + message]
      ensures lines == if |history| <= 120 then history else history[|history| - 120..]
    {
      lines := lines + [timestamp + " " + message];
      history := history + [timestamp + " " + message];
      if |lines| > MAX_LINES {
        lines := lines[|lines| - MAX_LINES..];
      }
    }
  }
}
