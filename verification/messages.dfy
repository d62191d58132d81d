/** The event records the worker threads post to the presentation layer
    (src/f_fee_tui/messages.py), and the exceptions they carry. */
module Messages {

  /** The Python exception classes the core distinguishes. */
  datatype ExceptionClass =
    | ConnectionError
    | AttributeError
    | KeyError
    | ValueError
    | IndexError
    | OtherError

  /** An exception object: its class and its `str()` text. */
  datatype Exception = Exception(cls: ExceptionClass, text: string)

  /** One posted message; field names follow the message classes' attributes. */
  datatype Event =
    | DebModeChanged(debMode: int)
    | AebStateChanged(aebStateType: string, aebState: bool)
    | DtcInModChanged(t0: int, t1: int, t2: int, t3: int, t4: int, t5: int, t6: int, t7: int)
    | OutbuffChanged(outbuff: seq<int>)
    | ExceptionCaught(exc: Exception, tb: string)
    | TimeoutReached(message: string)
    | ShutdownReached(message: string)
    | ProblemDetected(message: string)
    | CommandThreadCrashed(crash: Exception)
    | LogRetrieved(message: string)

  /** The message class of an event, without its payload. */
  datatype EventKind =
    | KDebMode | KAebState | KDtcInMod | KOutbuff | KException
    | KTimeout | KShutdown | KProblem | KCrash | KLog

  function KindOf(e: Event): EventKind
  {
    match e
    case DebModeChanged(_) => KDebMode
    case AebStateChanged(_, _) => KAebState
    case DtcInModChanged(_, _, _, _, _, _, _, _) => KDtcInMod
    case OutbuffChanged(_) => KOutbuff
    case ExceptionCaught(_, _) => KException
    case TimeoutReached(_) => KTimeout
    case ShutdownReached(_) => KShutdown
    case ProblemDetected(_) => KProblem
    case CommandThreadCrashed(_) => KCrash
    case LogRetrieved(_) => KLog
  }

  /** The number of events of kind k in a stream. */
  function Count(es: seq<Event>, k: EventKind): (n: nat)
    ensures n <= |es|
    decreases |es|
  {
    if |es| == 0 then 0
    else (if KindOf(es[0]) == k then 1 else 0) + Count(es[1..], k)
  }

  /** A stream has no event of kind k exactly when none of its events is of that kind. */
  lemma {:induction false} CountZero(es: seq<Event>, k: EventKind)
    ensures Count(es, k) == 0 <==> forall i :: 0 <= i < |es| ==> KindOf(es[i]) != k
    decreases |es|
  {
    if |es| > 0 {
      CountZero(es[1..], k);
      assert forall i :: 1 <= i < |es| ==> es[i] == es[1..][i - 1];
    }
  }

  /** Counting distributes over concatenation of event streams. */
  lemma {:induction false} CountAppend(a: seq<Event>, b: seq<Event>, k: EventKind)
    ensures Count(a + b, k) == Count(a, k) + Count(b, k)
    decreases |a|
  {
    if |a| > 0 {
      assert (a + b)[0] == a[0];
      assert (a + b)[1..] == a[1..] + b;
      CountAppend(a[1..], b, k);
    } else {
      assert a + b == b;
    }
  }
}
