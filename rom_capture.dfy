/** The range-of-motion capture of step 21: frames stream to an analysis
    socket, the latest reply that carries ROM data is kept, a countdown of
    VideoDuration one-second ticks ends the capture, and the kept reply
    becomes the saved measurement before the flow moves on.

    The camera, the socket and the frame encoding are not modelled; their
    events (video ready, socket open or closed, a message, the connection
    timeout) are methods, and what the code does to the outside world
    (stop the frame interval, save, close the socket, stop the camera tracks,
    call `next`) is returned as a list of effects. */
module RomCapture {
  import opened Messages

  const RomStep: int := 21
  const VideoDuration: int := 5
  const TickMs: nat := 1000
  const ConnectionTimeoutMs: nat := 10000
  const ErrorAdvanceDelayMs: nat := 3000

  // ---------------------------------------------------------------------
  // Socket messages and the kept frame
  // ---------------------------------------------------------------------

  /** `rom_data` of a reply; `ROM` is its pair of angles when present. */
  datatype RomData = RomData(rom: Option<seq<int>>)

  /** A parsed reply of the analysis socket. */
  datatype Frame = Frame(romData: Option<RomData>)

  /** A socket message: empty, the "pong" keep-alive, text that is not a JSON
      object, or a parsed reply. */
  datatype Incoming = Empty | Pong | Malformed | Json(frame: Frame)

  /** The messages that replace the kept frame: replies carrying `rom_data`. */
  predicate Kept(m: Incoming) {
    m.Json? && m.frame.romData.Some?
  }

  /** The kept frame after one message. */
  function AfterMessage(kept: Option<Frame>, m: Incoming): (r: Option<Frame>)
    ensures m.Empty? || m.Pong? || m.Malformed? ==> r == kept
    ensures m.Json? && m.frame.romData.None? ==> r == kept
    ensures m.Json? && m.frame.romData.Some? ==> r == Some(m.frame)
  {
    if Kept(m) then Some(m.frame) else kept
  }

  /** The kept frame after a run of messages, starting from `kept`. */
  function AfterMessages(kept: Option<Frame>, ms: seq<Incoming>): Option<Frame> {
    if ms == [] then kept else AfterMessage(AfterMessages(kept, ms[..|ms| - 1]), ms[|ms| - 1])
  }

  /** After a run of messages the kept frame is that of the newest message
      carrying ROM data; without one, it is the frame kept before. */
  lemma {:induction false} AfterMessagesKeepsNewest(kept: Option<Frame>, ms: seq<Incoming>)
    ensures (forall i :: 0 <= i < |ms| ==> !Kept(ms[i])) ==> AfterMessages(kept, ms) == kept
    ensures forall i :: 0 <= i < |ms| && Kept(ms[i]) && (forall j :: i < j < |ms| ==> !Kept(ms[j])) ==>
              AfterMessages(kept, ms) == Some(ms[i].frame)
  {
    if ms != [] {
      var p := ms[..|ms| - 1];
      AfterMessagesKeepsNewest(kept, p);
      forall i | 0 <= i < |ms| && Kept(ms[i]) && (forall j :: i < j < |ms| ==> !Kept(ms[j]))
        ensures AfterMessages(kept, ms) == Some(ms[i].frame)
      {
        if i < |ms| - 1 {
          assert p[i] == ms[i];
          assert forall j :: i < j < |p| ==> p[j] == ms[j];
        }
      }
      if forall i :: 0 <= i < |ms| ==> !Kept(ms[i]) {
        assert forall i :: 0 <= i < |p| ==> p[i] == ms[i];
      }
    }
  }

  // ---------------------------------------------------------------------
  // The measurement
  // ---------------------------------------------------------------------

  /** The `{minimum, maximum}` pair that is saved. */
  datatype Measurement = Measurement(minimum: int, maximum: int)

  /** `rom_data.ROM?.[k] || 0`. */
  function RomAt(d: RomData, k: nat): int {
    if d.rom.Some? && k < |d.rom.value| then d.rom.value[k] else 0
  }

  /** The measurement of the kept frame: the first two angles of its ROM,
      each defaulting to zero, and zero for both without a frame or without
      ROM data. */
  function MeasurementOf(kept: Option<Frame>): (m: Measurement)
    ensures kept.None? || kept.value.romData.None? ==> m == Measurement(0, 0)
    ensures kept.Some? && kept.value.romData.Some? && kept.value.romData.value.rom.None? ==> m == Measurement(0, 0)
    ensures kept.Some? && kept.value.romData.Some? && kept.value.romData.value.rom.Some? ==>
              var rom := kept.value.romData.value.rom.value;
              m == Measurement(if |rom| > 0 then rom[0] else 0, if |rom| > 1 then rom[1] else 0)
  {
    if kept.Some? && kept.value.romData.Some? then
      Measurement(RomAt(kept.value.romData.value, 0), RomAt(kept.value.romData.value, 1))
    else
      Measurement(0, 0)
  }

  // ---------------------------------------------------------------------
  // The countdown
  // ---------------------------------------------------------------------

  /** The timer updater of one tick: a value of at most 1 becomes 0 and ends
      the countdown, any other value drops by one. */
  function TickValue(prev: int): (r: int)
    ensures 0 <= prev ==> 0 <= r
    ensures r < prev || prev <= 0
  {
    if prev <= 1 then 0 else prev - 1
  }

  /** How many ticks a countdown that starts at `t` runs, the last one firing. */
  function TicksToEnd(t: int): nat
    decreases t
  {
    if t <= 1 then 1 else 1 + TicksToEnd(TickValue(t))
  }

  /** A countdown from t runs t ticks, and a single tick from a value of at
      most 1: from VideoDuration it runs VideoDuration ticks, and from the 0
      that a finished capture leaves, one. */
  lemma {:induction false} TicksToEndValue(t: int)
    ensures TicksToEnd(t) == if t <= 1 then 1 else t
    decreases t
  {
    if t > 1 {
      TicksToEndValue(t - 1);
    }
  }

  // ---------------------------------------------------------------------
  // The capture
  // ---------------------------------------------------------------------

  /** An effect on the outside world. */
  datatype RomEffect = StopStreaming | SaveRom(m: Measurement) | CloseSocket | StopTracks | Next | NextAfter(delayMs: nat)

  /** A snapshot of every field of a RomCapture. */
  datatype CaptureState = CaptureState(
    lastFrame: Option<Frame>,
    timer: int,
    timerRunning: bool,
    hasInitialized: bool,
    streaming: bool,
    socket: bool,
    socketOpen: bool,
    camera: bool,
    timeoutPending: bool)

  /** The countdown stays within 0..VideoDuration, frames stream only while
      there is a socket and a camera, and only an existing socket is open. */
  predicate ValidState(s: CaptureState) {
    0 <= s.timer <= VideoDuration && (s.streaming ==> s.socket && s.camera) && (s.socketOpen ==> s.socket)
  }

  /** The effects of onTimerEnd: stop streaming, save the measurement, close
      the socket and stop the camera when they exist and saving did not throw,
      and in every case move on once. */
  function TimerEndEffects(s: CaptureState, saveFails: bool): (e: seq<RomEffect>)
    ensures 3 <= |e| <= 5 && e[0] == StopStreaming && e[1] == SaveRom(MeasurementOf(s.lastFrame))
    ensures e[|e| - 1] == Next
    ensures CloseSocket in e <==> !saveFails && s.socket
    ensures StopTracks in e <==> !saveFails && s.camera
  {
    [StopStreaming, SaveRom(MeasurementOf(s.lastFrame))]
    + (if !saveFails && s.socket then [CloseSocket] else [])
    + (if !saveFails && s.camera then [StopTracks] else [])
    + [Next]
  }

  /** `next` is called exactly once, as the last effect, and the saved
      measurement is that of the kept frame. */
  lemma TimerEndMovesOnOnce(s: CaptureState, saveFails: bool)
    ensures var e := TimerEndEffects(s, saveFails);
            e[|e| - 1] == Next && Next !in e[..|e| - 1] && NextAfter(ErrorAdvanceDelayMs) !in e &&
            SaveRom(MeasurementOf(s.lastFrame)) in e
  {
    var e := TimerEndEffects(s, saveFails);
    assert e[..|e| - 1] == [StopStreaming, SaveRom(MeasurementOf(s.lastFrame))]
                          + (if !saveFails && s.socket then [CloseSocket] else [])
                          + (if !saveFails && s.camera then [StopTracks] else []);
  }

  class RomCapture {
    var lastFrame: Option<Frame>
    var timer: int
    // Refs: the countdown interval, the init guard, the frame interval.
    var timerRunning: bool
    var hasInitialized: bool
    var streaming: bool
    // The socket exists / is open; the camera stream is attached.
    var socket: bool
    var socketOpen: bool
    var camera: bool
    // The connection timeout is set and not yet cleared or fired.
    var timeoutPending: bool

    ghost function State(): CaptureState
      reads this
    {
      CaptureState(lastFrame, timer, timerRunning, hasInitialized, streaming, socket, socketOpen, camera,
                   timeoutPending)
    }

    ghost predicate Valid()
      reads this
    {
      ValidState(State())
    }

    constructor ()
      ensures Valid()
      ensures State() == CaptureState(None, VideoDuration, false, false, false, false, false, false, false)
    {
      lastFrame := None;
      timer := VideoDuration;
      timerRunning := false;
      hasInitialized := false;
      streaming := false;
      socket := false;
      socketOpen := false;
      camera := false;
      timeoutPending := false;
    }

    /** onmessage: a reply with ROM data replaces the kept frame. */
    method OnMessage(m: Incoming)
      requires Valid()
      modifies this
      ensures Valid()
      ensures State() == old(State()).(lastFrame := AfterMessage(old(lastFrame), m))
    {
      if m != Empty && m != Pong {
        if m.Json? && m.frame.romData.Some? {
          lastFrame := Some(m.frame);
        }
      }
    }

    /** One tick of the countdown interval. The tick that sees a value of at
        most 1 sets 0, stops the interval and runs onTimerEnd, whose effects
        it returns. */
    method TimerTick(saveFails: bool) returns (effects: seq<RomEffect>)
      requires Valid() && timerRunning
      modifies this
      ensures Valid()
      ensures old(timer) > 1 ==> State() == old(State()).(timer := TickValue(old(timer))) && effects == []
      ensures old(timer) <= 1 ==>
                effects == TimerEndEffects(old(State()), saveFails) &&
                State() == old(State()).(
                  timer := 0, timerRunning := false, streaming := false,
                  socket := saveFails && old(socket), socketOpen := saveFails && old(socketOpen),
                  camera := saveFails && old(camera))
    {
      if timer <= 1 {
        timerRunning := false;
        timer := 0;
        effects := OnTimerEnd(saveFails);
      } else {
        timer := timer - 1;
        effects := [];
      }
    }

    /** onTimerEnd: stop streaming, save the measurement of the kept frame,
        release the socket and the camera unless saving threw, move on. */
    method OnTimerEnd(saveFails: bool) returns (effects: seq<RomEffect>)
      requires Valid()
      modifies this
      ensures Valid()
      ensures effects == TimerEndEffects(old(State()), saveFails)
      ensures State() == old(State()).(
                streaming := false,
                socket := saveFails && old(socket), socketOpen := saveFails && old(socketOpen),
                camera := saveFails && old(camera))
    {
      streaming := false;
      effects := [StopStreaming, SaveRom(MeasurementOf(lastFrame))];
      if !saveFails {
        if socket {
          socket := false;
          socketOpen := false;
          effects := effects + [CloseSocket];
        }
        if camera {
          camera := false;
          effects := effects + [StopTracks];
        }
      }
      effects := effects + [Next];
    }

    /** init: sets the guard and reports whether the camera would be
        requested, which happens only when the guard was clear. */
    method Init() returns (started: bool)
      requires Valid()
      modifies this
      ensures Valid()
      ensures started <==> !old(hasInitialized)
      ensures State() == old(State()).(hasInitialized := true)
    {
      if hasInitialized {
        return false;
      }
      hasInitialized := true;
      started := true;
    }

    /** The camera's video is ready: it is attached and a socket is created,
        which starts the connection timeout. When creating the socket throws
        (`socketThrows`), no timeout is set and handleError runs instead. */
    method OnVideoReady(socketThrows: bool) returns (timeoutMs: Option<nat>, effects: seq<RomEffect>)
      requires Valid()
      modifies this
      ensures Valid()
      ensures !socketThrows ==>
                timeoutMs == Some(ConnectionTimeoutMs) && effects == [] &&
                State() == old(State()).(camera := true, socket := true, socketOpen := false, timeoutPending := true)
      ensures socketThrows ==>
                timeoutMs.None? &&
                effects == [StopStreaming] + (if old(socket) then [CloseSocket] else [])
                           + [StopTracks, NextAfter(ErrorAdvanceDelayMs)] &&
                State() == old(State()).(camera := true, streaming := false, socketOpen := false)
    {
      camera := true;
      if socketThrows {
        timeoutMs := None;
        effects := HandleError();
        return;
      }
      socket := true;
      socketOpen := false;
      timeoutPending := true;
      timeoutMs := Some(ConnectionTimeoutMs);
      effects := [];
    }

    /** onopen: the socket is open and the connection timeout is cleared. */
    method OnSocketOpen()
      requires Valid()
      modifies this
      ensures Valid()
      ensures State() == old(State()).(socketOpen := old(socket), timeoutPending := old(timeoutPending) && !old(socket))
    {
      if socket {
        socketOpen := true;
        timeoutPending := false;
      }
    }

    /** onclose: streaming stops. */
    method OnSocketClose()
      requires Valid()
      modifies this
      ensures Valid()
      ensures State() == old(State()).(socketOpen := false, streaming := false)
    {
      socketOpen := false;
      streaming := false;
    }

    /** startStreaming: refused without a socket or a camera; otherwise the
        frame interval (re)starts. */
    method StartStreaming() returns (started: bool)
      requires Valid()
      modifies this
      ensures Valid()
      ensures started <==> old(socket) && old(camera)
      ensures State() == old(State()).(streaming := old(streaming) || started)
    {
      if !socket || !camera {
        return false;
      }
      streaming := true;
      started := true;
    }

    /** Ten seconds after the socket was created. A cleared timeout does not
        fire. One that fires finds the socket open and does nothing more, or
        finds it not open (or gone) and runs handleError, which stops
        streaming, closes the socket, stops the camera and moves on after
        three seconds. */
    method OnConnectionTimeout() returns (effects: seq<RomEffect>)
      requires Valid()
      modifies this
      ensures Valid()
      ensures !old(timeoutPending) ==> effects == [] && State() == old(State())
      ensures old(timeoutPending) && old(socketOpen) ==> effects == [] && State() == old(State()).(timeoutPending := false)
      ensures old(timeoutPending) && !old(socketOpen) ==>
                effects == [StopStreaming] + (if old(socket) then [CloseSocket] else [])
                           + (if old(camera) then [StopTracks] else []) + [NextAfter(ErrorAdvanceDelayMs)] &&
                State() == old(State()).(streaming := false, timeoutPending := false)
    {
      effects := [];
      if !timeoutPending {
        return;
      }
      timeoutPending := false;
      if !socketOpen {
        effects := HandleError();
      }
    }

    /** handleError. */
    method HandleError() returns (effects: seq<RomEffect>)
      requires Valid()
      modifies this
      ensures Valid()
      ensures effects == [StopStreaming] + (if old(socket) then [CloseSocket] else [])
                         + (if old(camera) then [StopTracks] else []) + [NextAfter(ErrorAdvanceDelayMs)]
      ensures State() == old(State()).(streaming := false, socketOpen := false)
    {
      streaming := false;
      effects := [StopStreaming];
      if socket {
        socketOpen := false;
        effects := effects + [CloseSocket];
      }
      if camera {
        effects := effects + [StopTracks];
      }
      effects := effects + [NextAfter(ErrorAdvanceDelayMs)];
    }

    /** The step changed from `prev` to `next`. The countdown interval is
        always cleared; the rest of the cleanup belongs to the step being left
        and runs when `prev` is not 21 (clearing the init guard and the
        connection timeout, and releasing streaming, the socket and the
        camera). Entering step 21 starts the
        countdown, from the value the timer holds, and runs `Init`. */
    method StepChanged(prev: int, next: int) returns (started: bool)
      requires Valid()
      modifies this
      ensures Valid()
      ensures var s1 := if prev != RomStep
                        then old(State()).(timerRunning := false, hasInitialized := false, streaming := false,
                                           socket := false, socketOpen := false, camera := false,
                                           timeoutPending := false)
                        else old(State()).(timerRunning := false);
              (started <==> next == RomStep && !s1.hasInitialized) &&
              State() == (if next == RomStep then s1.(timerRunning := true, hasInitialized := true) else s1)
      ensures timer == old(timer)
    {
      // Cleanup of the countdown effect.
      timerRunning := false;
      // Cleanup of the init effect.
      if prev != RomStep {
        hasInitialized := false;
        streaming := false;
        socket := false;
        socketOpen := false;
        camera := false;
        timeoutPending := false;
      }
      if next == RomStep && !timerRunning {
        timerRunning := true;
      }
      started := false;
      if next == RomStep {
        started := Init();
      }
    }
  }

  /** A capture whose socket never opens: the countdown ends after five
      ticks and moves on, and the step it moves to (22) leaves nothing to
      clean up, so the connection timeout fires later and moves on again. */
  method NeverOpenedSocketMovesOnTwice() returns (atEnd: seq<RomEffect>, atTimeout: seq<RomEffect>)
    ensures Next in atEnd
    ensures NextAfter(ErrorAdvanceDelayMs) in atTimeout
  {
    var c := new RomCapture();
    var _ := c.StepChanged(RomStep - 1, RomStep);
    var _, _ := c.OnVideoReady(false);
    var e1 := c.TimerTick(false);
    var e2 := c.TimerTick(false);
    var e3 := c.TimerTick(false);
    var e4 := c.TimerTick(false);
    atEnd := c.TimerTick(false);
    var _ := c.StepChanged(RomStep, RomStep + 1);
    atTimeout := c.OnConnectionTimeout();
  }
}
