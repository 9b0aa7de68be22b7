// Android helpers of the app (src/app/src/util/androidutil.cpp): a filter
// that turns the window's close event into a back-button signal, and a list
// model holding the last lines of the log, newest first. Installing the
// message handler is a call into Qt and outside the model; the handler's
// only effect is Add.
module AndroidUtil {

  import opened Wrappers

  /** The kinds of event the filter tells apart. */
  datatype EventType = Close | OtherEvent

  /** CloseFilter::eventFilter: a close event is swallowed and reported as the back button. */
  method EventFilter(event: EventType) returns (filtered: bool, backButtonPressed: bool)
    ensures filtered <==> event == Close
    ensures backButtonPressed == filtered
  {
    if event == Close {
      return true, true;
    }
    return false, false;
  }

  /** Qt::UserRole + 1, the role under which a line is shown. */
  const TextRole: int := 0x0100 + 1

  /** The last n elements of s, or all of s when it is no longer. */
  function LastN<T>(s: seq<T>, n: nat): (r: seq<T>)
    ensures |r| == if |s| <= n then |s| else n
    ensures forall i :: 0 <= i < |r| ==> r[i] == s[|s| - |r| + i]
  {
    if |s| <= n then s else s[|s| - n..]
  }

  /** Trimming after every add leaves the same lines as trimming once at the end: the log is the last n lines ever added. */
  lemma LastNAppend<T>(s: seq<T>, x: T, n: nat)
    ensures LastN(s + [x], n) == LastN(LastN(s, n) + [x], n)
  {
    var t := s + [x];
    var u := LastN(s, n) + [x];
    if n > 0 {
      assert LastN(t, n)[|LastN(t, n)| - 1] == x;
      if |s| > n {
        assert u[1..] == LastN(t, n);
      }
    }
  }

  class Logger {
    var lines: seq<string>
    var lineCount: int

    /** An empty log showing at most 256 lines. */
    constructor ()
      ensures lines == [] && lineCount == 256
    {
      lines := [];
      lineCount := 256;
    }

    /** setLineCount: the limit changes, with lineCountChanged only when it differs; lines are not trimmed until the next add. */
    method SetLineCount(n: int) returns (changed: bool)
      modifies this
      ensures lineCount == n && lines == old(lines)
      ensures changed <==> old(lineCount) != n
    {
      if lineCount == n {
        return false;
      }
      lineCount := n;
      return true;
    }

    /**
     * add: the line is appended and the oldest lines dropped until at most
     * lineCount remain. Dropping from an empty list is not allowed, so the
     * limit may not be negative here.
     */
    method Add(line: string)
      requires lineCount >= 0
      modifies this
      ensures lineCount == old(lineCount)
      ensures lines == LastN(old(lines) + [line], lineCount)
      ensures |lines| <= lineCount
      ensures lineCount > 0 ==> lines[|lines| - 1] == line
    {
      ghost var all := lines + [line];
      lines := lines + [line];
      ghost var dropped := 0;
      while |lines| > lineCount
        invariant 0 <= dropped <= |all| && lines == all[dropped..]
        invariant dropped <= if |all| <= lineCount then 0 else |all| - lineCount
        invariant lineCount == old(lineCount)
        decreases |lines|
      {
        lines := lines[1..];
        dropped := dropped + 1;
      }
    }

    /** rowCount: the number of lines shown, never more than the limit. */
    function RowCount(): (n: int)
      reads this
      ensures n <= |lines| && n <= lineCount
      ensures n == |lines| || n == lineCount
    {
      if |lines| < lineCount then |lines| else lineCount
    }

    /** data: row 0 is the newest line; anything out of range or under another role is the empty variant. */
    function Data(row: int, role: int): (r: Option<string>)
      reads this
      ensures r.Some? <==> 0 <= row < RowCount() && role == TextRole
      ensures r.Some? ==> r.value == lines[|lines| - 1 - row]
    {
      if row < 0 || row >= RowCount() then None
      else if role != TextRole then None
      else Some(lines[|lines| - 1 - row])
    }
  }
}
