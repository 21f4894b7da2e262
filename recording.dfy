/**
 * The camera's on/off lifecycle. One flag, `streamOn`, guards every call into
 * the capture pipeline, so starting a running camera and stopping a stopped
 * one do nothing. The vendor pipeline is represented by a log of the calls
 * made into it.
 */
module Recording {
  import opened FrameOutput

  datatype PipelineCall = PipelineStart | PipelineStop

  /** The camera's observable state: the flag and every pipeline call made so far. */
  datatype CameraState = CameraState(streamOn: bool, pipeline: seq<PipelineCall>)

  /** A freshly constructed camera: off, no pipeline call yet. */
  const Initial: CameraState := CameraState(false, [])

  function StartTransition(s: CameraState): CameraState {
    if !s.streamOn then CameraState(true, s.pipeline + [PipelineStart]) else s
  }

  function StopTransition(s: CameraState): CameraState {
    if s.streamOn then CameraState(false, s.pipeline + [PipelineStop]) else s
  }

  datatype Command = Start | Stop

  function Apply(s: CameraState, c: Command): CameraState {
    match c
    case Start => StartTransition(s)
    case Stop => StopTransition(s)
  }

  /** The state after the commands `cs`, first to last. */
  function Run(s: CameraState, cs: seq<Command>): CameraState
    decreases |cs|
  {
    if cs == [] then s else Run(Apply(s, cs[0]), cs[1..])
  }

  /** The pipeline log reads start, stop, start, stop, ... */
  ghost predicate Alternating(log: seq<PipelineCall>) {
    forall i :: 0 <= i < |log| ==> log[i] == (if i % 2 == 0 then PipelineStart else PipelineStop)
  }

  /** The flag says whether the last pipeline call was a start. */
  ghost predicate Consistent(s: CameraState) {
    Alternating(s.pipeline) && s.streamOn == (|s.pipeline| % 2 == 1)
  }

  lemma InitialConsistent()
    ensures Consistent(Initial)
  {
  }

  lemma ApplyKeepsConsistent(s: CameraState, c: Command)
    requires Consistent(s)
    ensures Consistent(Apply(s, c))
  {
  }

  /** From a consistent state, any command sequence keeps the log alternating and the flag in step with it. */
  lemma {:induction false} RunKeepsConsistent(s: CameraState, cs: seq<Command>)
    requires Consistent(s)
    ensures Consistent(Run(s, cs))
    decreases |cs|
  {
    if cs != [] {
      ApplyKeepsConsistent(s, cs[0]);
      RunKeepsConsistent(Apply(s, cs[0]), cs[1..]);
    }
  }

  /** Running commands one after another is running them all. */
  lemma {:induction false} RunAppend(s: CameraState, cs: seq<Command>, c: Command)
    ensures Run(s, cs + [c]) == Apply(Run(s, cs), c)
    decreases |cs|
  {
    if cs != [] {
      assert (cs + [c])[1..] == cs[1..] + [c];
      RunAppend(Apply(s, cs[0]), cs[1..], c);
    }
  }

  /** Idempotence: a command repeated at once changes neither the flag nor the pipeline log. */
  lemma RepeatedCommandIsNoOp(s: CameraState, cs: seq<Command>, c: Command)
    ensures Run(s, cs + [c, c]) == Run(s, cs + [c])
  {
    assert cs + [c, c] == (cs + [c]) + [c];
    RunAppend(s, cs + [c], c);
    RunAppend(s, cs, c);
  }

  /** After any commands, the camera is on exactly when the last one was a start. */
  lemma LastCommandDecides(s: CameraState, cs: seq<Command>, c: Command)
    ensures Run(s, cs + [c]).streamOn == (c == Start)
  {
    RunAppend(s, cs, c);
  }

  /** Each command adds at most one pipeline call, and only when it changes the flag. */
  lemma PipelineCallOnlyOnChange(s: CameraState, c: Command)
    ensures Apply(s, c).streamOn != s.streamOn <==> |Apply(s, c).pipeline| == |s.pipeline| + 1
    ensures Apply(s, c).streamOn == s.streamOn <==> Apply(s, c) == s
  {
  }

  /** The camera object (RPiCamera): the flag, its frame sink and the pipeline log. */
  class Camera {
    var streamOn: bool
    /** The calls made into the vendor capture pipeline, oldest first. */
    ghost var pipeline: seq<PipelineCall>
    const output: CameraOutput

    ghost function State(): CameraState
      reads this
    {
      CameraState(streamOn, pipeline)
    }

    ghost predicate Valid()
      reads this, output
    {
      Consistent(State()) && output.Valid()
    }

    constructor ()
      ensures Valid()
      ensures State() == Initial
      ensures fresh(output) && output.frame.None? && output.history == []
    {
      streamOn := false;
      pipeline := [];
      output := new CameraOutput();
    }

    /** Starts the pipeline unless it already runs: exactly one start call when off, none when on. */
    method StartRecording()
      requires Valid()
      modifies this
      ensures Valid()
      ensures State() == StartTransition(old(State()))
      ensures streamOn
      ensures !old(streamOn) ==> pipeline == old(pipeline) + [PipelineStart]
      ensures old(streamOn) ==> pipeline == old(pipeline)
    {
      if !streamOn {
        pipeline := pipeline + [PipelineStart];
        streamOn := true;
      }
      ApplyKeepsConsistent(old(State()), Start);
    }

    /** Stops the pipeline unless it already is: exactly one stop call when on, none when off. */
    method StopRecording()
      requires Valid()
      modifies this
      ensures Valid()
      ensures State() == StopTransition(old(State()))
      ensures !streamOn
      ensures old(streamOn) ==> pipeline == old(pipeline) + [PipelineStop]
      ensures !old(streamOn) ==> pipeline == old(pipeline)
    {
      if streamOn {
        pipeline := pipeline + [PipelineStop];
        streamOn := false;
      }
      ApplyKeepsConsistent(old(State()), Stop);
    }
  }
}
