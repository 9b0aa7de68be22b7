// The server-side message log (src/shared/logger.cpp): a five-character tag
// per message type, a severity filter per destination, and the handler that
// writes a message to the destinations whose filter lets it through. The
// timestamp, the log file and stderr are outside the model: the handler
// receives the timestamp text and returns the lines it would write.
module Logger {

  import opened Wrappers

  /** QtMsgType; Unknown stands for any value outside the enumeration. */
  datatype MsgType = DebugMsg | WarningMsg | CriticalMsg | FatalMsg | InfoMsg | Unknown

  /** msgTypeStr: the bracketed tag that starts every line. */
  function MsgTypeStr(t: MsgType): (s: string)
    ensures |s| == 5 && s[0] == '[' && s[4] == ']'
    ensures t.Unknown? <==> s == "[xxx]"
  {
    match t
    case DebugMsg => "[Dbg]"
    case WarningMsg => "[Wrn]"
    case CriticalMsg => "[Crt]"
    case FatalMsg => "[Ftl]"
    case InfoMsg => "[Inf]"
    case Unknown => "[xxx]"
  }

  /** Distinct types have distinct tags. */
  lemma MsgTypeStrInjective(t: MsgType, u: MsgType)
    requires MsgTypeStr(t) == MsgTypeStr(u)
    ensures t == u
  {
  }

  /** The severity order the filter follows: Info < Debug < Warning < Critical < Fatal. */
  function Rank(t: MsgType): nat
    requires !t.Unknown?
  {
    match t
    case InfoMsg => 0
    case DebugMsg => 1
    case WarningMsg => 2
    case CriticalMsg => 3
    case FatalMsg => 4
  }

  /** printMessage: whether a message of the given type passes a filter. */
  function PrintMessage(t: MsgType, filter: MsgType): bool
  {
    match filter
    case InfoMsg => true
    case DebugMsg => t != InfoMsg
    case WarningMsg => t != InfoMsg && t != DebugMsg
    case CriticalMsg => t == FatalMsg || t == CriticalMsg
    case FatalMsg => t == FatalMsg
    case Unknown => false
  }

  /** For known types the filter lets through exactly the messages at least as severe as itself. */
  lemma PrintMessageIsRank(t: MsgType, filter: MsgType)
    requires !t.Unknown? && !filter.Unknown?
    ensures PrintMessage(t, filter) <==> Rank(t) >= Rank(filter)
  {
  }

  /** A filter always lets its own type through. */
  lemma PrintMessageReflexive(t: MsgType)
    requires !t.Unknown?
    ensures PrintMessage(t, t)
  {
    PrintMessageIsRank(t, t);
  }

  /** A filter of unknown type lets nothing through; a message of unknown type passes the Info, Debug and Warning filters. */
  lemma PrintMessageUnknown(t: MsgType)
    ensures !PrintMessage(t, Unknown)
    ensures PrintMessage(Unknown, InfoMsg) && PrintMessage(Unknown, DebugMsg) && PrintMessage(Unknown, WarningMsg)
    ensures !PrintMessage(Unknown, CriticalMsg) && !PrintMessage(Unknown, FatalMsg)
  {
  }

  /** The logger's static state: one filter per destination. */
  class Logger {
    var stderrFilter: MsgType
    var logfileFilter: MsgType

    /** The defaults: warnings and above on stderr, debug and above in the log file. */
    constructor ()
      ensures stderrFilter == WarningMsg && logfileFilter == DebugMsg
    {
      stderrFilter := WarningMsg;
      logfileFilter := DebugMsg;
    }

    method SetStderrFilter(firstVisibleCategory: MsgType)
      modifies this
      ensures stderrFilter == firstVisibleCategory && logfileFilter == old(logfileFilter)
    {
      stderrFilter := firstVisibleCategory;
    }

    method SetLogFileFilter(firstVisibleCategory: MsgType)
      modifies this
      ensures logfileFilter == firstVisibleCategory && stderrFilter == old(stderrFilter)
    {
      logfileFilter := firstVisibleCategory;
    }

    /**
     * messageHandler: the line is the tag, the timestamp text and the
     * message; it goes to each destination whose filter accepts the type,
     * and nothing is produced when neither does.
     */
    method MessageHandler(t: MsgType, timestamp: string, msg: string) returns (toStderr: Option<string>, toLogfile: Option<string>)
      ensures toStderr.Some? <==> PrintMessage(t, stderrFilter)
      ensures toLogfile.Some? <==> PrintMessage(t, logfileFilter)
      ensures toStderr.Some? ==> toStderr.value == MsgTypeStr(t) + timestamp + msg
      ensures toLogfile.Some? ==> toLogfile.value == MsgTypeStr(t) + timestamp + msg
    {
      var printStderr := PrintMessage(t, stderrFilter);
      var printLogfile := PrintMessage(t, logfileFilter);
      if !printStderr && !printLogfile {
        return None, None;
      }
      var out := MsgTypeStr(t) + timestamp + msg;
      toLogfile := if printLogfile then Some(out) else None;
      toStderr := if printStderr then Some(out) else None;
    }
  }

  /** With the default filters, Info goes nowhere, Debug only to the log file, and Warning and above to both. */
  lemma DefaultDestinations(t: MsgType)
    requires !t.Unknown?
    ensures PrintMessage(t, DebugMsg) <==> t != InfoMsg
    ensures PrintMessage(t, WarningMsg) <==> Rank(t) >= 2
  {
  }
}
