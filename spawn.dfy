/**
 * The report a forked child sends back to roxterm over a pipe
 * (src/spawn.c): "OK <pid>" once the command is running, or
 * "ERR <domain>,<code>,<message>" when it could not be started, then
 * "END"; and the listener that reads those reports in the parent.
 */
module Spawn {
  import opened Wrappers
  import opened Decimal

  /** An error domain: roxterm's own spawn quark, or a quark read back as its number. */
  datatype Domain = SpawnDomain | Quark(value: nat)

  /** A GError: domain, code and message. */
  datatype GErr = GErr(domain: Domain, code: int, message: string)

  /** Codes of the roxterm spawn error domain, in the order of their enum. */
  const SpawnErrorCode: int := 1
  const GarbledMessageErrorCode: int := 3
  const BadPidErrorCode: int := 5

  const UINT32: int := 0x1_0000_0000
  const INT32_MIN: int := -0x8000_0000
  const INT32_MAX: int := 0x7FFF_FFFF

  /** The (guint32) / %u reading of an integer: its value modulo 2^32. */
  function ToUint32(v: int): (r: nat)
    ensures r < UINT32
    ensures 0 <= v < UINT32 ==> r == v
  {
    v % UINT32
  }

  /** The (int) cast of a long: the 32-bit two's complement value with the same low 32 bits. */
  function ToInt32(v: int): (r: int)
    ensures INT32_MIN <= r <= INT32_MAX
    ensures INT32_MIN <= v <= INT32_MAX ==> r == v
  {
    var w := v % UINT32;
    if w > INT32_MAX then w - UINT32 else w
  }

  /** Printing an int with %u and casting it back to int gives the int again. */
  lemma Int32ThroughUint32(c: int)
    requires INT32_MIN <= c <= INT32_MAX
    ensures ToInt32(ToUint32(c)) == c
  {
  }

  predicate HasPrefix(s: string, p: string)
  {
    |p| <= |s| && s[..|p|] == p
  }

  /** garbled_message_error: a spawn-domain error quoting the text that did not parse. */
  function GarbledMessageError(s: string): GErr
  {
    GErr(SpawnDomain, GarbledMessageErrorCode, "Garbled message from filter: " + s)
  }

  /**
   * parse_error: a number, ',', a number, ',' and the message. Without a
   * number, or without the ',' after one, the result is a garbled-message
   * error quoting the text from where that number was expected.
   */
  function ParseError(s: string): GErr
  {
    var d := Strtol(s, 0);
    if d.1 == 0 || d.1 == |s| || s[d.1] != ',' then GarbledMessageError(s)
    else
      var t := s[d.1 + 1..];
      var c := Strtol(t, 0);
      if c.1 == 0 || c.1 == |t| || t[c.1] != ',' then GarbledMessageError(t)
      else GErr(Quark(ToUint32(d.0)), ToInt32(c.0), t[c.1 + 1..])
  }

  /** The body of an "ERR" report: the domain and the code printed with %u, and the message, separated by ','. */
  function ErrBody(domain: nat, code: int, message: string): string
  {
    NatToString(ToUint32(domain)) + "," + NatToString(ToUint32(code)) + "," + message
  }

  /**
   * What launch_and_monitor_child writes to the pipe: "ERR " and the
   * error when spawning failed, otherwise "OK " and the pid printed with %u.
   */
  function ChildReport(error: Option<(nat, int, string)>, pid: int): string
  {
    match error
    case Some(e) => "ERR " + ErrBody(e.0, e.1, e.2)
    case None => "OK " + NatToString(ToUint32(pid))
  }

  /** A text without ',' never parses as an error: it is reported as garbled. */
  lemma ParseErrorWithoutComma(s: string)
    requires ',' !in s
    ensures ParseError(s) == GarbledMessageError(s)
  {
    var d := Strtol(s, 0);
    if d.1 != 0 && d.1 < |s| {
      assert s[d.1] in s;
    }
  }

  /** parse_error reads back what launch_and_monitor_child wrote: the same domain, code and message. */
  lemma ParseErrorOfErrBody(domain: nat, code: int, message: string)
    requires domain < UINT32 && INT32_MIN <= code <= INT32_MAX
    ensures ParseError(ErrBody(domain, code, message)) == GErr(Quark(domain), code, message)
  {
    var cu := ToUint32(code);
    var t := NatToString(cu) + "," + message;
    assert ErrBody(domain, code, message) == NatToString(domain) + "," + t;
    NumberThenComma(domain, t);
    NumberThenComma(cu, message);
    Int32ThroughUint32(code);
  }

  /** strtol at a %u number followed by ',': the number, ending at the ','. */
  lemma NumberThenComma(n: nat, rest: string)
    requires n <= LONG_MAX
    ensures var ns := NatToString(n); var s := ns + "," + rest;
      Strtol(s, 0) == (n, |ns|) && |ns| < |s| && s[|ns|] == ',' && s[|ns| + 1..] == rest
  {
    var ns := NatToString(n);
    var s := ns + "," + rest;
    assert s == [] + ns + ("," + rest);
    StrtolNatToString([], n, "," + rest);
    assert s[|ns|] == ',';
    assert s[|ns| + 1..] == rest;
  }

  /** The listener's state: ctx's pid, error and pending callbacks, the local started flag, and whether the loop has ended. */
  datatype Listen = Listen(pid: int, error: Option<GErr>, started: bool, scheduled: nat, stopped: bool, freed: bool)

  /**
   * One pass of main_context_listener's loop over a message read from
   * the pipe ("" is a zero-length message, which is skipped).
   */
  function Step(st: Listen, msg: string): Listen
    requires !st.stopped
  {
    if msg == "" then st
    else
      var handled := Handle(st, msg);
      var st1 := handled.0;
      var err := handled.1;
      if err.Some? then
        if !st1.started then
          // handle_stream_error: the first error is kept for the callback, which is scheduled
          st1.(error := if st1.error.None? then err else st1.error, scheduled := st1.scheduled + 1, stopped := true)
        else st1.(stopped := true, freed := true)
      else if msg == "END" then st1.(stopped := true, freed := true)
      else st1
  }

  /**
   * The "ERR" and "OK" branches: the error a message raises, and the new
   * state when an "OK" starts the command. The text after the prefix
   * and its separator is read as empty when the message stops short.
   */
  function Handle(st: Listen, msg: string): (Listen, Option<GErr>)
  {
    if HasPrefix(msg, "ERR") then (st, Some(ParseError(if |msg| >= 4 then msg[4..] else "")))
    else if HasPrefix(msg, "OK") then
      if st.started then (st, None)
      else
        var p := Strtol(if |msg| >= 3 then msg[3..] else "", 0).0;
        if p == 0 then (st, Some(GErr(SpawnDomain, BadPidErrorCode, "Can't read pid from '" + msg + "'")))
        else (st.(pid := ToInt32(p), error := None, scheduled := st.scheduled + 1, started := true), None)
    else (st, None)
  }

  /** The listener over the messages in order, until its loop ends or the messages run out. */
  function Run(st: Listen, msgs: seq<string>): Listen
    decreases |msgs|
  {
    if msgs == [] || st.stopped then st else Run(Step(st, msgs[0]), msgs[1..])
  }

  /** The context the listener shares with the idle callback. */
  class ListenerContext {
    var pid: int
    var error: Option<GErr>
    /** How many times main_callback_on_idle has been scheduled. */
    var scheduled: nat
    /** Whether roxterm_main_context_free has run. */
    var freed: bool

    constructor ()
      ensures pid == -1 && error == None && scheduled == 0 && !freed
    {
      pid := -1;
      error := None;
      scheduled := 0;
      freed := false;
    }
  }

  /**
   * main_context_listener over the messages the pipe yields: the context
   * and the loop's own flags end as Run says.
   */
  method Listener(ctx: ListenerContext, msgs: seq<string>) returns (started: bool, stopped: bool)
    requires !ctx.freed
    modifies ctx
    ensures Listen(ctx.pid, ctx.error, started, ctx.scheduled, stopped, ctx.freed)
      == Run(Listen(old(ctx.pid), old(ctx.error), false, old(ctx.scheduled), false, false), msgs)
  {
    started := false;
    stopped := false;
    var i := 0;
    while i < |msgs| && !stopped
      invariant 0 <= i <= |msgs|
      invariant stopped || !ctx.freed
      invariant Run(Listen(old(ctx.pid), old(ctx.error), false, old(ctx.scheduled), false, false), msgs)
        == Run(Listen(ctx.pid, ctx.error, started, ctx.scheduled, stopped, ctx.freed), msgs[i..])
    {
      var msg := msgs[i];
      assert msgs[i..][1..] == msgs[i + 1..];
      i := i + 1;
      if msg == "" {
        continue;
      }
      var err: Option<GErr> := None;
      if HasPrefix(msg, "ERR") {
        err := Some(ParseError(if |msg| >= 4 then msg[4..] else ""));
      } else if HasPrefix(msg, "OK") {
        if !started {
          var p := Strtol(if |msg| >= 3 then msg[3..] else "", 0).0;
          if p == 0 {
            err := Some(GErr(SpawnDomain, BadPidErrorCode, "Can't read pid from '" + msg + "'"));
          } else {
            ctx.pid := ToInt32(p);
            ctx.error := None;
            ctx.scheduled := ctx.scheduled + 1;
            started := true;
          }
        }
      }
      if err.Some? {
        if !started {
          if ctx.error.None? {
            ctx.error := err;
          }
          ctx.scheduled := ctx.scheduled + 1;
        } else {
          ctx.freed := true;
        }
        stopped := true;
      } else if msg == "END" {
        ctx.freed := true;
        stopped := true;
      }
    }
    if i < |msgs| {
      assert msgs[i..] != [];
    }
  }

  /** Once the command has started, later messages never change its pid. */
  lemma {:induction false} RunKeepsPid(st: Listen, msgs: seq<string>)
    requires st.started
    ensures Run(st, msgs).started && Run(st, msgs).pid == st.pid
    decreases |msgs|
  {
    if msgs != [] && !st.stopped {
      RunKeepsPid(Step(st, msgs[0]), msgs[1..]);
    }
  }

  /** The listener's starting state: nothing started, no error, nothing scheduled. */
  function Initial(pid: int, scheduled: nat): Listen
  {
    Listen(pid, None, false, scheduled, false, false)
  }

  /**
   * A child that failed to spawn: the listener stops at once with the
   * child's own domain, code and message as the context's error, and
   * schedules the callback that reports it; later messages are not read.
   */
  lemma ListenerReportsChildError(pid: int, scheduled: nat, domain: nat, code: int, message: string, rest: seq<string>)
    requires domain < UINT32 && INT32_MIN <= code <= INT32_MAX
    ensures var r := Run(Initial(pid, scheduled), [ChildReport(Some((domain, code, message)), 0)] + rest);
      r.stopped && !r.started && !r.freed && r.scheduled == scheduled + 1
      && r.error == Some(GErr(Quark(domain), code, message))
  {
    var msg := ChildReport(Some((domain, code, message)), 0);
    assert HasPrefix(msg, "ERR");
    assert msg[4..] == ErrBody(domain, code, message);
    ParseErrorOfErrBody(domain, code, message);
    assert ([msg] + rest)[0] == msg;
  }

  /**
   * A child that spawned: its "OK" starts the command with the child's
   * pid and schedules the callback, and the "END" that follows ends the
   * loop and frees the context.
   */
  lemma ListenerStartsChild(pid0: int, scheduled: nat, pid: int, rest: seq<string>)
    requires 0 < pid <= INT32_MAX
    ensures var r := Run(Initial(pid0, scheduled), [ChildReport(None, pid), "END"] + rest);
      r.started && r.pid == pid && r.error == None && r.scheduled == scheduled + 1 && r.stopped && r.freed
  {
    var msg := ChildReport(None, pid);
    var ps := NatToString(pid);
    assert msg[..3][0] == 'O' && msg[..2] == "OK";
    assert msg[3..] == [] + ps + [];
    StrtolNatToString([], pid, []);
    var st := Step(Initial(pid0, scheduled), msg);
    assert st.started && st.pid == pid && !st.stopped;
    var msgs := [msg, "END"] + rest;
    assert msgs[1..] == ["END"] + rest;
    assert "END"[..3] != "ERR" && "END"[..2] != "OK" by {
      assert "END"[..3][0] == 'E' && "END"[..3][1] == 'N';
      assert "END"[..2][0] == 'E';
    }
    var st2 := Step(st, "END");
    assert st2.stopped && st2.freed && st2.pid == pid && st2.started;
    assert Run(st, msgs[1..]) == Run(st2, rest);
  }

  /** "OK" with a pid that reads as 0 is a bad-pid error, reported through the callback. */
  lemma ListenerBadPid(pid0: int, scheduled: nat, rest: seq<string>)
    ensures var r := Run(Initial(pid0, scheduled), ["OK 0"] + rest);
      r.stopped && !r.started
      && r.error == Some(GErr(SpawnDomain, BadPidErrorCode, "Can't read pid from 'OK 0'"))
  {
    var msg := "OK 0";
    assert msg[..3][0] == 'O' && msg[..2] == "OK";
    assert msg[3..] == [] + NatToString(0) + [];
    StrtolNatToString([], 0, []);
    assert (["OK 0"] + rest)[0] == msg;
    assert "Can't read pid from '" + msg + "'" == "Can't read pid from 'OK 0'";
  }
}
