/** A flit, the unit a packet is split into on its way through the network:
    its identity, its virtual channel, the candidate outports the routing
    unit collected for it, and the pipeline stage it has reached. */
module Flits {
  import opened Network

  /** Pipeline stages and flit kinds of the router (CommonTypes.hh). */
  datatype FlitStage = I | VA | SA | ST | LT
  datatype FlitType = Head | Body | Tail | HeadTail | Credit

  /** Every field of a flit, as one value. */
  datatype FlitState = FlitState(
    packetId: int, id: int, vnet: int, vc: int,
    state: int, commonOutport: int, espaceOutport: int, numEscapeVc: int, mustVc: int,
    possiblePort: seq<int>, route: RouteInfo, size: int,
    enqueueTime: nat, dequeueTime: nat, time: nat, flitType: FlitType,
    outport: int, srcDelay: nat, stage: FlitStage, stageTime: nat,
    width: nat, msgSize: int)

  class Flit {
    var width: nat            // m_width (uint32_t)
    var msgSize: int
    var packetId: int
    var id: int
    var vnet: int
    var vc: int
    var state: int            // 0: in a common VC, 1: in an escape VC
    var commonOutport: int
    var espaceOutport: int
    var numEscapeVc: int
    var mustVc: int
    var possiblePort: seq<int>
    var route: RouteInfo
    var size: int
    var enqueueTime: nat      // Tick
    var dequeueTime: nat
    var time: nat
    var flitType: FlitType
    var outport: int
    var srcDelay: nat
    var stage: FlitStage      // m_stage.first
    var stageTime: nat        // m_stage.second

    function State(): FlitState
      reads this
    {
      FlitState(packetId, id, vnet, vc, state, commonOutport, espaceOutport, numEscapeVc, mustVc,
                possiblePort, route, size, enqueueTime, dequeueTime, time, flitType,
                outport, srcDelay, stage, stageTime, width, msgSize)
    }

    function GetOutport(): int reads this { outport }
    function GetSize(): int reads this { size }
    function GetEnqueueTime(): nat reads this { enqueueTime }
    function GetDequeueTime(): nat reads this { dequeueTime }
    function GetPacketId(): int reads this { packetId }
    function GetId(): int reads this { id }
    function GetTime(): nat reads this { time }
    function GetVnet(): int reads this { vnet }
    function GetVc(): int reads this { vc }
    function GetMustVc(): int reads this { mustVc }
    function GetCommonOutport(): int reads this { commonOutport }
    function GetEspaceOutport(): int reads this { espaceOutport }
    function GetState(): int reads this { state }
    function GetNumEscapeVc(): int reads this { numEscapeVc }
    function GetRoute(): RouteInfo reads this { route }
    function GetType(): FlitType reads this { flitType }
    function GetStage(): (FlitStage, nat) reads this { (stage, stageTime) }
    function GetSrcDelay(): nat reads this { srcDelay }

    method SetOutport(port: int)
      modifies this
      ensures GetOutport() == port
      ensures State() == old(State()).(outport := port)
    {
      outport := port;
    }

    method SetTime(t: nat)
      modifies this
      ensures GetTime() == t
      ensures State() == old(State()).(time := t)
    {
      time := t;
    }

    method SetVc(v: int)
      modifies this
      ensures GetVc() == v
      ensures State() == old(State()).(vc := v)
    {
      vc := v;
    }

    method SetMustVc(v: int)
      modifies this
      ensures GetMustVc() == v
      ensures State() == old(State()).(mustVc := v)
    {
      mustVc := v;
    }

    method SetRoute(r: RouteInfo)
      modifies this
      ensures GetRoute() == r
      ensures State() == old(State()).(route := r)
    {
      route := r;
    }

    method SetSrcDelay(delay: nat)
      modifies this
      ensures GetSrcDelay() == delay
      ensures State() == old(State()).(srcDelay := delay)
    {
      srcDelay := delay;
    }

    method SetDequeueTime(t: nat)
      modifies this
      ensures GetDequeueTime() == t
      ensures State() == old(State()).(dequeueTime := t)
    {
      dequeueTime := t;
    }

    method SetEnqueueTime(t: nat)
      modifies this
      ensures GetEnqueueTime() == t
      ensures State() == old(State()).(enqueueTime := t)
    {
      enqueueTime := t;
    }

    /** The outport in the common network; the escape outport is untouched. */
    method SetCommonOutport(port: int)
      modifies this
      ensures GetCommonOutport() == port && GetEspaceOutport() == old(GetEspaceOutport())
      ensures State() == old(State()).(commonOutport := port)
    {
      commonOutport := port;
    }

    /** The outport in the escape network; the common outport is untouched. */
    method SetEspaceOutport(port: int)
      modifies this
      ensures GetEspaceOutport() == port && GetCommonOutport() == old(GetCommonOutport())
      ensures State() == old(State()).(espaceOutport := port)
    {
      espaceOutport := port;
    }

    method SetState(s: int)
      modifies this
      ensures GetState() == s
      ensures State() == old(State()).(state := s)
    {
      state := s;
    }

    method SetNumEscapeVc(n: int)
      modifies this
      ensures GetNumEscapeVc() == n
      ensures State() == old(State()).(numEscapeVc := n)
    {
      numEscapeVc := n;
    }

    /** `clear_possible_outport`: forgets every candidate outport. */
    method ClearPossibleOutport()
      modifies this
      ensures GetAllOutport() == []
      ensures State() == old(State()).(possiblePort := [])
    {
      possiblePort := [];
    }

    /** `insert_port`: one more candidate, after the earlier ones. */
    method InsertPort(port: int)
      modifies this
      ensures GetAllOutport() == old(GetAllOutport()) + [port]
      ensures State() == old(State()).(possiblePort := old(possiblePort) + [port])
    {
      possiblePort := possiblePort + [port];
    }

    /** `get_all_outport`: the candidates in the order they were inserted. */
    function GetAllOutport(): seq<int>
      reads this
    {
      possiblePort
    }

    /** `increment_hops`: one more hop on the route, nothing else changes. */
    method IncrementHops()
      modifies this
      ensures GetRoute().hopsTraversed == old(GetRoute().hopsTraversed) + 1
      ensures State() == old(State()).(route := old(route).(hopsTraversed := old(route).hopsTraversed + 1))
    {
      route := route.(hopsTraversed := route.hopsTraversed + 1);
    }

    /** `is_stage`: the flit is in stage `s` and has been since `t` or
        earlier. */
    predicate IsStage(s: FlitStage, t: nat)
      reads this
    {
      s == stage && t >= stageTime
    }

    /** `advance_stage`: the flit enters stage `s` at time `t`. From then
        on it is in stage `s` exactly at the times from `t` on, and in no
        other stage. */
    method AdvanceStage(s: FlitStage, t: nat)
      modifies this
      ensures GetStage() == (s, t)
      ensures forall t': nat :: IsStage(s, t') <==> t' >= t
      ensures forall s', t': nat :: s' != s ==> !IsStage(s', t')
      ensures State() == old(State()).(stage := s, stageTime := t)
    {
      stage := s;
      stageTime := t;
    }

    /** `greater`: `n1` comes after `n2` in time, ties broken by flit id. */
    static predicate Greater(n1: Flit, n2: Flit)
      reads n1, n2
    {
      if n1.GetTime() == n2.GetTime() then n1.GetId() > n2.GetId()
      else n1.GetTime() > n2.GetTime()
    }
  }

  /** `greater` is the lexicographic order on (time, id), read backwards. */
  lemma GreaterIsLexicographic(n1: Flit, n2: Flit)
    ensures Flit.Greater(n1, n2) <==>
      n1.time > n2.time || (n1.time == n2.time && n1.id > n2.id)
  {
  }

  /** `greater` is a strict order on flits ... */
  lemma GreaterStrictOrder(n1: Flit, n2: Flit, n3: Flit)
    ensures !Flit.Greater(n1, n1)
    ensures Flit.Greater(n1, n2) ==> !Flit.Greater(n2, n1)
    ensures Flit.Greater(n1, n2) && Flit.Greater(n2, n3) ==> Flit.Greater(n1, n3)
  {
  }

  /** ... that tells apart any two flits whose (time, id) pairs differ. */
  lemma GreaterTotal(n1: Flit, n2: Flit)
    requires n1.time != n2.time || n1.id != n2.id
    ensures Flit.Greater(n1, n2) || Flit.Greater(n2, n1)
  {
  }
}
