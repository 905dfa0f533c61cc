/** The request timeout: a buffering writer shared by the handler's goroutine and the middleware. */
module TimeoutWriter {
  type Bytes = seq<int>
  type Headers = map<string, string>

  // What the real response writer is told.
  datatype Output = SetHeaders(h: Headers) | Status(code: int) | Body(bytes: Bytes)

  const OK := 200
  const INTERNAL_SERVER_ERROR := 500
  const GATEWAY_TIMEOUT := 504
  const JSON: Headers := map["Content-Type" := "application/json"]

  /** The writer as a value; `dst` is everything the real response writer got. */
  datatype Writer = Writer(hdr: Headers, buf: Bytes, status: int, timedOut: bool, dst: seq<Output>)

  const FRESH := Writer(map[], [], 0, false, [])

  function OnHeader(w: Writer, key: string, value: string): Writer {
    w.(hdr := w.hdr[key := value])
  }

  function OnWriteHeader(w: Writer, code: int): Writer {
    if w.status == 0 then w.(status := code) else w
  }

  function OnWrite(w: Writer, b: Bytes): Writer {
    if w.timedOut then w
    else w.(status := if w.status == 0 then OK else w.status, buf := w.buf + b)
  }

  function OnFlush(w: Writer): Writer {
    if w.timedOut then w
    else
      var code := if w.status == 0 then OK else w.status;
      w.(status := code, dst := w.dst + [SetHeaders(w.hdr), Status(code), Body(w.buf)])
  }

  function OnError(w: Writer, code: int, body: Bytes): Writer {
    if w.timedOut then w
    else w.(timedOut := true, dst := w.dst + [SetHeaders(JSON), Status(code), Body(body)])
  }

  /** timeoutWriter. Every method holds the mutex, so its effect is one step. */
  class Shared {
    var hdr: Headers
    var buf: Bytes
    var status: int
    var timedOut: bool
    var dst: seq<Output>

    ghost function Model(): Writer
      reads this
    {
      Writer(hdr, buf, status, timedOut, dst)
    }

    constructor ()
      ensures Model() == FRESH
    {
      hdr, buf, status, timedOut, dst := map[], [], 0, false, [];
    }

    method Header(key: string, value: string)
      modifies this
      ensures Model() == OnHeader(old(Model()), key, value)
    {
      hdr := hdr[key := value];
    }

    method WriteHeader(code: int)
      modifies this
      ensures Model() == OnWriteHeader(old(Model()), code)
    {
      if status == 0 {
        status := code;
      }
    }

    method Write(b: Bytes) returns (n: int)
      modifies this
      ensures Model() == OnWrite(old(Model()), b) && n == |b|
    {
      n := |b|;
      if timedOut {
        return;
      }
      if status == 0 {
        status := OK;
      }
      buf := buf + b;
    }

    method Flush()
      modifies this
      ensures Model() == OnFlush(old(Model()))
    {
      if timedOut {
        return;
      }
      dst := dst + [SetHeaders(hdr)];
      if status == 0 {
        status := OK;
      }
      dst := dst + [Status(status)];
      dst := dst + [Body(buf)];
      assert dst == old(dst) + [SetHeaders(hdr), Status(status), Body(buf)];
    }

    method WriteError(code: int, body: Bytes)
      modifies this
      ensures Model() == OnError(old(Model()), code, body)
    {
      if timedOut {
        return;
      }
      timedOut := true;
      dst := dst + [SetHeaders(JSON)];
      dst := dst + [Status(code)];
      dst := dst + [Body(body)];
      assert dst == old(dst) + [SetHeaders(JSON), Status(code), Body(body)];
    }
  }

  // ---- the protocol ---------------------------------------------------------------------

  // The handler's goroutine: it runs, may panic, and ends by closing `done`.
  datatype Handler = Running | Panicked | Ended

  datatype System = System(w: Writer, handler: Handler, expired: bool, returned: bool)

  datatype Event =
    | SetHeader(key: string, value: string)
    | WriteStatus(code: int)
    | WriteBody(bytes: Bytes)
    | Return
    | Panic
    | Recover(body: Bytes)
    | Expire
    | TakeDone
    | TakeTimeout(body: Bytes)

  const START := System(FRESH, Running, false, false)

  /** The handler acts while it runs; a recovered panic answers 500 and closes `done`; the middleware
      waits for `done` or the deadline, answers once and returns. The deadline may pass at any time. */
  predicate Enabled(s: System, e: Event) {
    match e
    case SetHeader(_, _) => s.handler == Running
    case WriteStatus(_) => s.handler == Running
    case WriteBody(_) => s.handler == Running
    case Return => s.handler == Running
    case Panic => s.handler == Running
    case Recover(_) => s.handler == Panicked
    case Expire => !s.expired
    case TakeDone => s.handler == Ended && !s.returned
    case TakeTimeout(_) => s.expired && !s.returned
  }

  function Next(s: System, e: Event): System {
    match e
    case SetHeader(k, v) => s.(w := OnHeader(s.w, k, v))
    case WriteStatus(code) => s.(w := OnWriteHeader(s.w, code))
    case WriteBody(b) => s.(w := OnWrite(s.w, b))
    case Return => s.(handler := Ended)
    case Panic => s.(handler := Panicked)
    case Recover(body) => s.(handler := Ended, w := OnError(s.w, INTERNAL_SERVER_ERROR, body))
    case Expire => s.(expired := true)
    case TakeDone => s.(returned := true, w := OnFlush(s.w))
    case TakeTimeout(body) => s.(returned := true, w := OnError(s.w, GATEWAY_TIMEOUT, body))
  }

  function Run(s: System, es: seq<Event>): System {
    if es == [] then s else Next(Run(s, es[..|es| - 1]), es[|es| - 1])
  }

  predicate Possible(s: System, es: seq<Event>) {
    es == [] || (Possible(s, es[..|es| - 1]) && Enabled(Run(s, es[..|es| - 1]), es[|es| - 1]))
  }

  // ---- what the handler said, from the events alone ----------------------------------------

  function AllWritten(es: seq<Event>): Bytes {
    if es == [] then []
    else AllWritten(es[..|es| - 1]) + (if es[|es| - 1].WriteBody? then es[|es| - 1].bytes else [])
  }

  function AllHeaders(es: seq<Event>): Headers {
    if es == [] then map[]
    else
      var before := AllHeaders(es[..|es| - 1]);
      match es[|es| - 1]
      case SetHeader(k, v) => before[k := v]
      case _ => before
  }

  /** The first status given; writing a body first means 200; 0 when nothing was said. */
  function FirstStatus(es: seq<Event>): int {
    if es == [] then 0
    else
      var before := FirstStatus(es[..|es| - 1]);
      if before != 0 then before
      else
        match es[|es| - 1]
        case WriteStatus(code) => code
        case WriteBody(_) => OK
        case _ => 0
  }

  function HandlerResponse(es: seq<Event>): seq<Output> {
    [SetHeaders(AllHeaders(es)), Status(if FirstStatus(es) == 0 then OK else FirstStatus(es)), Body(AllWritten(es))]
  }

  /** One whole error answer, as JSON. */
  predicate IsErrorResponse(dst: seq<Output>, code: int, body: Bytes) {
    dst == [SetHeaders(map["Content-Type" := "application/json"]), Status(code), Body(body)]
  }

  /** The answer to a panic of the handler. */
  ghost predicate AnswersPanic(dst: seq<Output>, es: seq<Event>) {
    Panic in es && exists body :: Recover(body) in es && IsErrorResponse(dst, 500, body)
  }

  /** The answer to a deadline that passed. */
  ghost predicate AnswersTimeout(dst: seq<Output>, es: seq<Event>) {
    Expire in es && exists body :: TakeTimeout(body) in es && IsErrorResponse(dst, 504, body)
  }

  // ---- every interleaving --------------------------------------------------------------------

  /** What holds after any possible run `es` that ended in `s`. */
  ghost predicate Inv(s: System, es: seq<Event>) {
    && (s.handler == Running ==> Panic !in es) && (s.handler == Panicked ==> Panic in es)
    && (s.expired <==> Expire in es)
    && (!s.w.timedOut ==>
          s.w.hdr == AllHeaders(es) && s.w.buf == AllWritten(es)
          && (s.w.status == FirstStatus(es) || (s.returned && s.w.status == OK)))
    && (!s.w.timedOut && s.handler == Ended ==> Panic !in es)
    && (!s.w.timedOut && !s.returned ==> s.w.dst == [])
    && (!s.w.timedOut && s.returned ==> s.handler == Ended && s.w.dst == HandlerResponse(es))
    && (s.w.timedOut ==>
          AnswersPanic(s.w.dst, es) || (AnswersTimeout(s.w.dst, es) && s.returned && s.expired))
  }

  lemma {:induction false} Step(s: System, es: seq<Event>, e: Event)
    requires Inv(s, es) && Enabled(s, e)
    ensures Inv(Next(s, e), es + [e])
  {
    var fs := es + [e];
    assert fs[..|fs| - 1] == es && fs[|fs| - 1] == e;
    assert forall x :: x in fs <==> x in es || x == e;
  }

  lemma {:induction false} Reachable(es: seq<Event>)
    requires Possible(START, es)
    ensures Inv(Run(START, es), es)
  {
    if es != [] {
      var n := |es| - 1;
      Reachable(es[..n]);
      Step(Run(START, es[..n]), es[..n], es[n]);
      assert es[..n] + [es[n]] == es;
    }
  }

  /** When the middleware has returned, the client got exactly one status and one body: everything the
      handler said, or one error body after a panic or after the deadline, never a mix. */
  lemma {:induction false} ExactlyOneResponse(es: seq<Event>)
    requires Possible(START, es) && Run(START, es).returned
    ensures var dst := Run(START, es).w.dst;
            || (dst == HandlerResponse(es) && Return in es && Panic !in es)
            || AnswersPanic(dst, es)
            || AnswersTimeout(dst, es)
  {
    Reachable(es);
    EndedHow(es);
  }

  lemma {:induction false} EndedHow(es: seq<Event>)
    requires Possible(START, es)
    ensures Run(START, es).handler == Ended ==> Return in es || Panic in es
    ensures Run(START, es).handler == Panicked ==> Panic in es
  {
    if es != [] {
      var n := |es| - 1;
      EndedHow(es[..n]);
      assert forall x :: x in es[..n] ==> x in es;
      assert es[n] in es;
    }
  }

  /** Before it returned, the client got nothing or the whole answer to a panic. */
  lemma {:induction false} NothingPartial(es: seq<Event>)
    requires Possible(START, es) && !Run(START, es).returned
    ensures var dst := Run(START, es).w.dst;
            dst == [] || AnswersPanic(dst, es)
  {
    Reachable(es);
  }

  /** Whatever the handler still does after the middleware has returned, the real writer is not touched. */
  lemma {:induction false} UntouchedAfterReturn(es: seq<Event>, more: seq<Event>)
    requires Possible(START, es + more) && Run(START, es).returned
    ensures Run(START, es + more).returned && Run(START, es + more).w.dst == Run(START, es).w.dst
    decreases |more|
  {
    if more == [] {
      assert es + more == es;
    } else {
      var n := |more| - 1;
      assert (es + more)[..|es + more| - 1] == es + more[..n];
      UntouchedAfterReturn(es, more[..n]);
      Reachable(es + more[..n]);
    }
  }

  /** The answer cannot be missed either: once the handler ended or the deadline passed, one step answers. */
  lemma {:induction false} AlwaysAnswers(es: seq<Event>, body: Bytes)
    requires Possible(START, es) && !Run(START, es).returned
    requires Run(START, es).handler == Ended || Run(START, es).expired
    ensures exists e :: Possible(START, es + [e]) && Run(START, es + [e]).returned && Run(START, es + [e]).w.dst != []
  {
    var e := if Run(START, es).handler == Ended then TakeDone else TakeTimeout(body);
    assert (es + [e])[..|es|] == es;
    Reachable(es);
    assert Possible(START, es + [e]) && Run(START, es + [e]).returned && Run(START, es + [e]).w.dst != [];
  }
}
