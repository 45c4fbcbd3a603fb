/**
 * audio/openal/ALSource: an OpenAL source handle with a disposed flag that
 * guards every mutating call. The OpenAL library is not modelled: each call
 * the source makes is appended to a log, the values alGetSourcei returns are
 * parameters, and so is whether ALError.check throws after a call.
 */
module Audio {
  import opened Wrappers
  import opened Geometry

  // OpenAL 1.1 token values (AudioDevice.Constants is not part of this model).
  const AL_FALSE: int := 0
  const AL_TRUE: int := 1
  const AL_LOOPING: int := 0x1007
  const AL_BUFFER: int := 0x1009
  const AL_SOURCE_STATE: int := 0x1010
  const AL_PLAYING: int := 0x1012
  const AL_PAUSED: int := 0x1013

  /** ALSource.State (ALSource.java:285-288). */
  datatype State = Playing | Stopped | Paused | Looping

  /** One call into the OpenAL library, with the source id it names. */
  datatype ALCall =
    | SourceI(source: int, parameter: int, value: int)
    | SourceF(source: int, parameter: int, fvalue: real)
    | Source3F(source: int, parameter: int, x: real, y: real, z: real)
    | SourcePlay(source: int)
    | SourcePause(source: int)
    | SourceStop(source: int)
    | SourceRewind(source: int)
    | GetSourceI(source: int, parameter: int)
    | DeleteSources(source: int)

  /** The ALException a call throws: the disposed guard with its message, or ALError.check. */
  datatype ALException = AlreadyDisposed(message: string) | ALError

  /** The part of an ALSource that changes: the disposed flag and the calls issued so far. */
  datatype SourceState = SourceState(disposed: bool, issued: seq<ALCall>)

  /** The state after a call, and what the call returned or threw. */
  datatype Step<T> = Step(state: SourceState, result: Result<T, ALException>)

  /**
   * The shape shared by setParameter, play, pause, stop and rewind: a
   * disposed source throws with `message` and issues nothing; otherwise the
   * call is issued and ALError.check throws when `alFails`.
   */
  function Guarded(s: SourceState, call: ALCall, message: string, alFails: bool): (r: Step<()>)
    ensures s.disposed ==> r.state == s && r.result == Failure(AlreadyDisposed(message))
    ensures !s.disposed ==> r.state == SourceState(false, s.issued + [call])
    ensures !s.disposed ==> (r.result.Failure? <==> alFails) && (alFails ==> r.result.error == ALError)
  {
    if s.disposed then Step(s, Failure(AlreadyDisposed(message)))
    else
      var s' := SourceState(s.disposed, s.issued + [call]);
      if alFails then Step(s', Failure(ALError)) else Step(s', Success(()))
  }

  /** getParameter (ALSource.java:242-248): no disposed guard; the query is always issued. */
  function Query(s: SourceState, call: ALCall, reply: int, alFails: bool): (r: Step<int>)
    ensures r.state == SourceState(s.disposed, s.issued + [call])
    ensures r.result == if alFails then Failure(ALError) else Success(reply)
  {
    var s' := SourceState(s.disposed, s.issued + [call]);
    Step(s', if alFails then Failure(ALError) else Success(reply))
  }

  /** dispose (ALSource.java:255-264): the flag is set only once the delete and its error check succeed. */
  function Disposal(s: SourceState, id: int, alFails: bool): (r: Step<()>)
    ensures r.state.disposed <==> s.disposed || !alFails
    ensures r.result.Success? <==> !s.disposed && !alFails
    ensures s.disposed ==> r.state == s
    ensures !s.disposed ==> r.state.issued == s.issued + [DeleteSources(id)]
  {
    if s.disposed then Step(s, Failure(AlreadyDisposed("Cannot Dispose an already disposed OpenAL Source")))
    else
      var s' := SourceState(s.disposed, s.issued + [DeleteSources(id)]);
      if alFails then Step(s', Failure(ALError)) else Step(SourceState(true, s'.issued), Success(()))
  }

  /** The value setParameter(int, boolean) passes on (ALSource.java:91-94). */
  function BoolToAL(value: bool): (v: int)
    ensures value <==> v == AL_TRUE
    ensures !value <==> v == AL_FALSE
  {
    if value then AL_TRUE else AL_FALSE
  }

  /** The AL_BUFFER value attachBuffer sets (ALSource.java:59-62): 0 for null, else the buffer's id. */
  function BufferValue(buffer: Option<int>): (v: int)
    ensures buffer.None? ==> v == 0
    ensures buffer.Some? ==> v == buffer.value
  {
    if buffer.None? then 0 else buffer.value
  }

  /** The switch of getState (ALSource.java:215-227) over the queried source state and looping flag. */
  function Classify(state: int, looping: int): (r: State)
    ensures r == Looping <==> state == AL_PLAYING && looping == AL_TRUE
    ensures r == Playing <==> state == AL_PLAYING && looping != AL_TRUE
    ensures r == Paused <==> state == AL_PAUSED
    ensures r == Stopped <==> state != AL_PLAYING && state != AL_PAUSED
  {
    if state == AL_PLAYING then (if looping == AL_TRUE then Looping else Playing)
    else if state == AL_PAUSED then Paused
    else Stopped
  }

  /** A call an application can make on a source, with the values OpenAL would hand back. */
  datatype Op =
    | SetInt(parameter: int, value: int)
    | SetFloat(parameter: int, fvalue: real)
    | Set3(parameter: int, x: real, y: real, z: real)
    | Play | Pause | Stop | Rewind
    | GetParameter(parameter: int, reply: int)
    | Dispose

  /** The effect of one operation on source `id`; `alFails` is what ALError.check would report after it. */
  function Apply(s: SourceState, id: int, op: Op, alFails: bool): SourceState
  {
    match op
    case SetInt(p, v) => Guarded(s, SourceI(id, p, v), "ALSource is already disposed", alFails).state
    case SetFloat(p, v) => Guarded(s, SourceF(id, p, v), "ALSource is already disposed", alFails).state
    case Set3(p, x, y, z) => Guarded(s, Source3F(id, p, x, y, z), "ALSource is already disposed", alFails).state
    case Play => Guarded(s, SourcePlay(id), "Cannot play a disposed ALSource", alFails).state
    case Pause => Guarded(s, SourcePause(id), "Cannot pause a disposed ALSource", alFails).state
    case Stop => Guarded(s, SourceStop(id), "Cannot stop a disposed ALSource", alFails).state
    case Rewind => Guarded(s, SourceRewind(id), "Cannot rewind a disposed ALSource", alFails).state
    case GetParameter(p, reply) => Query(s, GetSourceI(id, p), reply, alFails).state
    case Dispose => Disposal(s, id, alFails).state
  }

  /** A run of operations, each paired with its error-check outcome, applied in order. */
  function Run(s: SourceState, id: int, ops: seq<(Op, bool)>): SourceState
    decreases |ops|
  {
    if ops == [] then s else Run(Apply(s, id, ops[0].0, ops[0].1), id, ops[1..])
  }

  /** Calls are only ever appended to the log, and a disposed source stays disposed. */
  lemma {:induction false} RunExtendsLog(s: SourceState, id: int, ops: seq<(Op, bool)>)
    ensures |s.issued| <= |Run(s, id, ops).issued| && Run(s, id, ops).issued[..|s.issued|] == s.issued
    ensures s.disposed ==> Run(s, id, ops).disposed
    decreases |ops|
  {
    if ops != [] {
      var s' := Apply(s, id, ops[0].0, ops[0].1);
      ApplyExtendsLog(s, id, ops[0].0, ops[0].1);
      RunExtendsLog(s', id, ops[1..]);
      assert |s.issued| <= |s'.issued| <= |Run(s, id, ops).issued|;
      assert Run(s, id, ops).issued[..|s'.issued|][..|s.issued|] == Run(s, id, ops).issued[..|s.issued|];
    }
  }

  /** One operation appends at most one call and never clears the disposed flag. */
  lemma ApplyExtendsLog(s: SourceState, id: int, op: Op, alFails: bool)
    ensures var s' := Apply(s, id, op, alFails);
            && (s'.issued == s.issued || exists c :: s'.issued == s.issued + [c])
            && (s.disposed ==> s'.disposed)
            && |s.issued| <= |s'.issued| && s'.issued[..|s.issued|] == s.issued
  {
    var s' := Apply(s, id, op, alFails);
    assert s'.issued == s.issued || s'.issued == s.issued + [s'.issued[|s'.issued| - 1]];
  }

  /** After disposal the only calls a source still issues are getParameter's queries. */
  lemma {:induction false} DisposedIssuesOnlyQueries(s: SourceState, id: int, ops: seq<(Op, bool)>)
    requires s.disposed
    ensures Run(s, id, ops).disposed
    ensures |s.issued| <= |Run(s, id, ops).issued| && Run(s, id, ops).issued[..|s.issued|] == s.issued
    ensures forall i :: |s.issued| <= i < |Run(s, id, ops).issued| ==> Run(s, id, ops).issued[i].GetSourceI?
    decreases |ops|
  {
    if ops != [] {
      var s' := Apply(s, id, ops[0].0, ops[0].1);
      assert s'.issued == s.issued || (ops[0].0.GetParameter? && s'.issued == s.issued + [GetSourceI(id, ops[0].0.parameter)]);
      DisposedIssuesOnlyQueries(s', id, ops[1..]);
      assert s'.issued[..|s.issued|] == s.issued;
    }
  }

  /** A source that ends disposed but did not start so issued alDeleteSources for its id along the way. */
  lemma {:induction false} DisposedOnlyAfterDelete(s: SourceState, id: int, ops: seq<(Op, bool)>)
    requires !s.disposed && Run(s, id, ops).disposed
    ensures exists i :: |s.issued| <= i < |Run(s, id, ops).issued| && Run(s, id, ops).issued[i] == DeleteSources(id)
    decreases |ops|
  {
    var s' := Apply(s, id, ops[0].0, ops[0].1);
    RunExtendsLog(s', id, ops[1..]);
    if s'.disposed {
      assert ops[0].0.Dispose?;
      var i := |s.issued|;
      assert s'.issued[i] == DeleteSources(id);
      assert Run(s', id, ops[1..]).issued[i] == s'.issued[..|s'.issued|][i];
    } else {
      DisposedOnlyAfterDelete(s', id, ops[1..]);
    }
  }

  /** The second of two dispose calls fails, whatever the first did, once the first succeeded. */
  lemma DisposeSucceedsOnce(s: SourceState, id: int, fails1: bool, fails2: bool)
    requires Disposal(s, id, fails1).result.Success?
    ensures Disposal(Disposal(s, id, fails1).state, id, fails2).result.Failure?
    ensures Disposal(Disposal(s, id, fails1).state, id, fails2).state == Disposal(s, id, fails1).state
  {
  }

  class ALSource {
    const id: int
    var disposed: bool
    /** The OpenAL calls this source has issued, oldest first. */
    var issued: seq<ALCall>

    function State(): SourceState
      reads this
    {
      SourceState(disposed, issued)
    }

    /** ALSource() (ALSource.java:47-50): `generated` is the id alGenSources returned. */
    constructor (generated: int)
      ensures id == generated && !disposed && issued == []
    {
      id := generated;
      disposed := false;
      issued := [];
    }

    /** isDisposed (ALSource.java:277-280). */
    function IsDisposed(): (d: bool)
      reads this
      ensures d == State().disposed
    {
      disposed
    }

    /** getId (ALSource.java:269-272). */
    function GetId(): (r: int)
      ensures r == id
    {
      id
    }

    method Perform(call: ALCall, message: string, alFails: bool) returns (r: Outcome<ALException>)
      modifies this
      ensures var t := Guarded(old(State()), call, message, alFails);
              State() == t.state && (r.Fail? <==> t.result.Failure?) && (r.Fail? ==> r.error == t.result.error)
    {
      if disposed {
        return Fail(AlreadyDisposed(message));
      }
      issued := issued + [call];
      if alFails {
        return Fail(ALError);
      }
      r := Pass;
    }

    /** setParameter(int, int) (ALSource.java:73-80). */
    method SetParameterInt(parameter: int, value: int, alFails: bool) returns (r: Outcome<ALException>)
      modifies this
      ensures var t := Guarded(old(State()), SourceI(id, parameter, value), "ALSource is already disposed", alFails);
              State() == t.state && (r.Fail? <==> t.result.Failure?) && (r.Fail? ==> r.error == t.result.error)
    {
      r := Perform(SourceI(id, parameter, value), "ALSource is already disposed", alFails);
    }

    /** setParameter(int, boolean) (ALSource.java:91-94): true becomes AL_TRUE, false AL_FALSE. */
    method SetParameterBool(parameter: int, value: bool, alFails: bool) returns (r: Outcome<ALException>)
      modifies this
      ensures var t := Guarded(old(State()), SourceI(id, parameter, BoolToAL(value)), "ALSource is already disposed", alFails);
              State() == t.state && (r.Fail? <==> t.result.Failure?) && (r.Fail? ==> r.error == t.result.error)
    {
      r := SetParameterInt(parameter, if value then AL_TRUE else AL_FALSE, alFails);
    }

    /** attachBuffer (ALSource.java:59-62): `buffer` is the attached ALBuffer's id, None for null. */
    method AttachBuffer(buffer: Option<int>, alFails: bool) returns (r: Outcome<ALException>)
      modifies this
      ensures var t := Guarded(old(State()), SourceI(id, AL_BUFFER, BufferValue(buffer)), "ALSource is already disposed", alFails);
              State() == t.state && (r.Fail? <==> t.result.Failure?) && (r.Fail? ==> r.error == t.result.error)
    {
      r := SetParameterInt(AL_BUFFER, if buffer.None? then 0 else buffer.value, alFails);
    }

    /** setParameter(int, float) (ALSource.java:105-112). */
    method SetParameterFloat(parameter: int, value: real, alFails: bool) returns (r: Outcome<ALException>)
      modifies this
      ensures var t := Guarded(old(State()), SourceF(id, parameter, value), "ALSource is already disposed", alFails);
              State() == t.state && (r.Fail? <==> t.result.Failure?) && (r.Fail? ==> r.error == t.result.error)
    {
      r := Perform(SourceF(id, parameter, value), "ALSource is already disposed", alFails);
    }

    /** setParameter(int, float, float, float) (ALSource.java:139-146). */
    method SetParameter3(parameter: int, x: real, y: real, z: real, alFails: bool) returns (r: Outcome<ALException>)
      modifies this
      ensures var t := Guarded(old(State()), Source3F(id, parameter, x, y, z), "ALSource is already disposed", alFails);
              State() == t.state && (r.Fail? <==> t.result.Failure?) && (r.Fail? ==> r.error == t.result.error)
    {
      r := Perform(Source3F(id, parameter, x, y, z), "ALSource is already disposed", alFails);
    }

    /** setParameter(int, Vector3) (ALSource.java:123-126): forwards the three components. */
    method SetParameterVector(parameter: int, value: Vec3, alFails: bool) returns (r: Outcome<ALException>)
      modifies this
      ensures var t := Guarded(old(State()), Source3F(id, parameter, value.x, value.y, value.z), "ALSource is already disposed", alFails);
              State() == t.state && (r.Fail? <==> t.result.Failure?) && (r.Fail? ==> r.error == t.result.error)
    {
      r := SetParameter3(parameter, value.x, value.y, value.z, alFails);
    }

    /** play (ALSource.java:153-160). */
    method Play(alFails: bool) returns (r: Outcome<ALException>)
      modifies this
      ensures var t := Guarded(old(State()), SourcePlay(id), "Cannot play a disposed ALSource", alFails);
              State() == t.state && (r.Fail? <==> t.result.Failure?) && (r.Fail? ==> r.error == t.result.error)
    {
      r := Perform(SourcePlay(id), "Cannot play a disposed ALSource", alFails);
    }

    /** pause (ALSource.java:167-174). */
    method Pause(alFails: bool) returns (r: Outcome<ALException>)
      modifies this
      ensures var t := Guarded(old(State()), SourcePause(id), "Cannot pause a disposed ALSource", alFails);
              State() == t.state && (r.Fail? <==> t.result.Failure?) && (r.Fail? ==> r.error == t.result.error)
    {
      r := Perform(SourcePause(id), "Cannot pause a disposed ALSource", alFails);
    }

    /** stop (ALSource.java:181-188). */
    method Stop(alFails: bool) returns (r: Outcome<ALException>)
      modifies this
      ensures var t := Guarded(old(State()), SourceStop(id), "Cannot stop a disposed ALSource", alFails);
              State() == t.state && (r.Fail? <==> t.result.Failure?) && (r.Fail? ==> r.error == t.result.error)
    {
      r := Perform(SourceStop(id), "Cannot stop a disposed ALSource", alFails);
    }

    /** rewind (ALSource.java:195-202). */
    method Rewind(alFails: bool) returns (r: Outcome<ALException>)
      modifies this
      ensures var t := Guarded(old(State()), SourceRewind(id), "Cannot rewind a disposed ALSource", alFails);
              State() == t.state && (r.Fail? <==> t.result.Failure?) && (r.Fail? ==> r.error == t.result.error)
    {
      r := Perform(SourceRewind(id), "Cannot rewind a disposed ALSource", alFails);
    }

    /** getParameter (ALSource.java:242-248): `reply` is what alGetSourcei returns. */
    method GetParameter(parameter: int, reply: int, alFails: bool) returns (r: Result<int, ALException>)
      modifies this
      ensures var t := Query(old(State()), GetSourceI(id, parameter), reply, alFails);
              State() == t.state && r == t.result
    {
      issued := issued + [GetSourceI(id, parameter)];
      if alFails {
        return Failure(ALError);
      }
      r := Success(reply);
    }

    /**
     * getState (ALSource.java:211-228): queries AL_SOURCE_STATE, and
     * AL_LOOPING only when the source is playing.
     */
    method GetState(stateReply: int, stateFails: bool, loopingReply: int, loopingFails: bool)
      returns (r: Result<State, ALException>)
      modifies this
      ensures disposed == old(disposed)
      ensures stateFails ==> issued == old(issued) + [GetSourceI(id, AL_SOURCE_STATE)] && r == Failure(ALError)
      ensures !stateFails && stateReply != AL_PLAYING ==>
                issued == old(issued) + [GetSourceI(id, AL_SOURCE_STATE)] && r == Success(Classify(stateReply, loopingReply))
      ensures !stateFails && stateReply == AL_PLAYING ==>
                && issued == old(issued) + [GetSourceI(id, AL_SOURCE_STATE), GetSourceI(id, AL_LOOPING)]
                && r == if loopingFails then Failure(ALError) else Success(Classify(stateReply, loopingReply))
    {
      var state := GetParameter(AL_SOURCE_STATE, stateReply, stateFails);
      if state.Failure? {
        return Failure(state.error);
      }
      if state.value == AL_PLAYING {
        var looping := GetParameter(AL_LOOPING, loopingReply, loopingFails);
        if looping.Failure? {
          return Failure(looping.error);
        }
        if looping.value == AL_TRUE {
          return Success(Looping);
        }
        return Success(Playing);
      }
      if state.value == AL_PAUSED {
        return Success(Paused);
      }
      r := Success(Stopped);
    }

    /** dispose (ALSource.java:255-264). */
    method Dispose(alFails: bool) returns (r: Outcome<ALException>)
      modifies this
      ensures var t := Disposal(old(State()), id, alFails);
              State() == t.state && (r.Fail? <==> t.result.Failure?) && (r.Fail? ==> r.error == t.result.error)
    {
      if disposed {
        return Fail(AlreadyDisposed("Cannot Dispose an already disposed OpenAL Source"));
      }
      issued := issued + [DeleteSources(id)];
      if alFails {
        return Fail(ALError);
      }
      disposed := true;
      r := Pass;
    }
  }
}
