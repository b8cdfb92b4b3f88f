/** The PLC client over a self-holding ladder: a start coil latches its output, the reset coil
    breaks every latch. Coils and latches are named by address. */
module PlcClient {
  import opened Wrappers
  import opened PlcConfig

  // Coils that are on, and outputs the ladder holds.
  datatype Device = Device(on: set<nat>, latched: set<nat>)

  function Elements(s: seq<nat>): set<nat> {
    set i | 0 <= i < |s| :: s[i]
  }

  function Starts(c: Config): set<nat> {
    Elements(c.addresses)
  }

  // One scan of the ladder; it runs through before the next write arrives.
  function Scan(c: Config, d: Device): Device {
    d.(latched := if c.resetAddress in d.on then {} else d.latched + (d.on * Starts(c)))
  }

  function Put(d: Device, addresses: set<nat>, value: bool): Device {
    d.(on := if value then d.on + addresses else d.on - addresses)
  }

  // How one Modbus write ends: fine, or with an error after or before it took effect.
  datatype Fate = Fine | ErrorAfter | ErrorBefore

  // Which writes fail, by their number since the client was made.
  type Faults = nat -> Fate

  // The device and the number of writes so far, and whether none of the last ones failed.
  datatype Link = Link(dev: Device, writes: nat, ok: bool)

  function Write(c: Config, f: Faults, l: Link, addresses: set<nat>, value: bool): Link {
    if !l.ok then l
    else
      Link(if f(l.writes) == ErrorBefore then l.dev else Scan(c, Put(l.dev, addresses, value)),
           l.writes + 1, f(l.writes) == Fine)
  }

  function Pulse(c: Config, f: Faults, l: Link, addresses: set<nat>): Link {
    Write(c, f, Write(c, f, l, addresses, true), addresses, false)
  }

  function PulseLabels(c: Config, f: Faults, l: Link, labels: seq<string>): Link
    requires |c.labels| == |c.addresses| && forall k :: 0 <= k < |labels| ==> Lookup(c, labels[k]).Some?
    decreases |labels|
  {
    if labels == [] then l
    else PulseLabels(c, f, Pulse(c, f, l, {Lookup(c, labels[0]).value}), labels[1..])
  }

  function WriteEach(c: Config, f: Faults, l: Link, addresses: seq<nat>, value: bool): Link
    decreases |addresses|
  {
    if addresses == [] then l else WriteEach(c, f, Write(c, f, l, {addresses[0]}, value), addresses[1..], value)
  }

  predicate Contiguous(addresses: seq<nat>) {
    forall i :: 0 <= i < |addresses| - 1 ==> addresses[i + 1] == addresses[i] + 1
  }

  function Nth(first: nat, i: nat): nat {
    first + i
  }

  // The coils of a batch write.
  function Range(first: nat, count: nat): set<nat> {
    set i: nat | i < count :: Nth(first, i)
  }

  function WriteStarts(c: Config, f: Faults, l: Link, value: bool): Link
    requires c.addresses != []
  {
    if Contiguous(c.addresses) then Write(c, f, l, Range(c.addresses[0], |c.addresses|), value)
    else WriteEach(c, f, l, c.addresses, value)
  }

  function ApplyState(c: Config, f: Faults, l: Link, state: SystemState, reset: bool): Link
    requires Valid(c)
  {
    var first := if reset then Pulse(c, f, l, {c.resetAddress}) else l;
    LabelsResolve(c, state);
    PulseLabels(c, f, first, c.stateOutputs[state])
  }

  lemma LabelsResolve(c: Config, state: SystemState)
    requires Valid(c)
    ensures forall k :: 0 <= k < |c.stateOutputs[state]| ==> Lookup(c, c.stateOutputs[state][k]).Some?
  {
    forall k | 0 <= k < |c.stateOutputs[state]|
      ensures Lookup(c, c.stateOutputs[state][k]).Some?
    {
      LookupSucceeds(c, state, k);
    }
  }

  /** The client. A write that fails raises and ends the call; `ok` is false from then on. */
  class ModbusPlcClient {
    const c: Config
    const f: Faults
    var dev: Device
    var writes: nat
    var state: SystemState

    constructor (c: Config, f: Faults, dev: Device)
      ensures this.c == c && this.f == f && At() == Link(dev, 0, true) && state == Idle
    {
      this.c, this.f, this.dev, writes, state := c, f, dev, 0, Idle;
    }

    function At(): Link
      reads this
    {
      Link(dev, writes, true)
    }

    // The end of a call that began at `before` and did what `after` says.
    ghost predicate Did(after: Link, ok: bool)
      reads this
    {
      dev == after.dev && writes == after.writes && ok == after.ok
    }

    method WriteCoils(addresses: set<nat>, value: bool) returns (ok: bool)
      modifies this`dev, this`writes
      ensures Did(Write(c, f, old(At()), addresses, value), ok)
    {
      var fate := f(writes);
      if fate != ErrorBefore {
        dev := Scan(c, Put(dev, addresses, value));
      }
      writes := writes + 1;
      return fate == Fine;
    }

    /** pulse_coil */
    method PulseCoil(address: nat) returns (ok: bool)
      modifies this`dev, this`writes
      ensures Did(Pulse(c, f, old(At()), {address}), ok)
    {
      ok := WriteCoils({address}, true);
      if ok {
        ok := WriteCoils({address}, false);
      }
    }

    /** write_start_coils */
    method WriteStartCoils(value: bool) returns (ok: bool)
      requires c.addresses != []
      modifies this`dev, this`writes
      ensures Did(WriteStarts(c, f, old(At()), value), ok)
    {
      hide Write, Range;
      ghost var l := old(At());
      if !Contiguous(c.addresses) {
        ok := true;
        assert c.addresses[0..] == c.addresses;
        for i := 0 to |c.addresses|
          invariant ok && WriteEach(c, f, At(), c.addresses[i..], value) == WriteEach(c, f, l, c.addresses, value)
        {
          ghost var here := At();
          assert c.addresses[i..][1..] == c.addresses[i + 1..];
          ok := WriteCoils({c.addresses[i]}, value);
          if !ok {
            StoppedStays(c, f, Write(c, f, here, {c.addresses[i]}, value), c.addresses[i + 1..], value);
            return;
          }
        }
        NoneToWrite(c, f, At(), c.addresses[|c.addresses|..], value);
        return;
      }
      ok := WriteCoils(Range(c.addresses[0], |c.addresses|), value);
    }

    /** pulse_start_coils */
    method PulseStartCoils() returns (ok: bool)
      requires c.addresses != []
      modifies this`dev, this`writes
      ensures Did(WriteStarts(c, f, WriteStarts(c, f, old(At()), true), false), ok)
    {
      hide WriteStarts;
      ok := WriteStartCoils(true);
      if ok {
        ok := WriteStartCoils(false);
      } else {
        StoppedStarts(c, f, WriteStarts(c, f, old(At()), true), false);
      }
    }

    /** reset_outputs */
    method ResetOutputs() returns (ok: bool)
      modifies this`dev, this`writes
      ensures Did(Pulse(c, f, old(At()), {c.resetAddress}), ok)
    {
      ok := PulseCoil(c.resetAddress);
    }

    // The loop over the output labels of a state.
    method PulseOutputs(labels: seq<string>) returns (ok: bool)
      requires |c.labels| == |c.addresses| && forall k :: 0 <= k < |labels| ==> Lookup(c, labels[k]).Some?
      modifies this`dev, this`writes
      ensures Did(PulseLabels(c, f, old(At()), labels), ok)
    {
      hide Pulse;
      ghost var l := old(At());
      ok := true;
      assert labels[0..] == labels;
      for i := 0 to |labels|
        invariant ok && PulseLabels(c, f, At(), labels[i..]) == PulseLabels(c, f, l, labels)
      {
        ghost var here := At();
        assert labels[i..][1..] == labels[i + 1..];
        var address := CoilAddressForLabel(c, labels[i]);
        ok := PulseCoil(address.value);
        if !ok {
          StoppedPulses(c, f, Pulse(c, f, here, {address.value}), labels[i + 1..]);
          return;
        }
      }
      NoneToPulse(c, f, At(), labels[|labels|..]);
    }

    /** set_system_state: the recorded state changes only when every write went through. */
    method SetSystemState(next: SystemState, applyOutputs: bool, resetFirst: bool) returns (ok: bool)
      requires Valid(c)
      modifies this
      ensures Did(if applyOutputs then ApplyState(c, f, old(At()), next, resetFirst) else old(At()), ok)
      ensures state == if ok then next else old(state)
    {
      ok := true;
      if applyOutputs {
        hide Pulse, PulseLabels;
        LabelsResolve(c, next);
        if resetFirst {
          ok := ResetOutputs();
          if !ok {
            StoppedPulses(c, f, Pulse(c, f, old(At()), {c.resetAddress}), c.stateOutputs[next]);
            return;
          }
        }
        ok := PulseOutputs(c.stateOutputs[next]);
        if !ok {
          return;
        }
      }
      state := next;
    }

    /** set_estop */
    method SetEstop(applyOutputs: bool) returns (ok: bool)
      requires Valid(c)
      modifies this
      ensures Did(if applyOutputs then ApplyState(c, f, old(At()), EStop, false) else old(At()), ok)
      ensures state == if ok then EStop else old(state)
    {
      ok := SetSystemState(EStop, applyOutputs, false);
    }
  }

  // After an error the call writes nothing more.
  lemma {:induction false} StoppedStays(c: Config, f: Faults, l: Link, addresses: seq<nat>, value: bool)
    requires !l.ok
    ensures WriteEach(c, f, l, addresses, value) == l
    decreases |addresses|
  {
    if addresses != [] {
      StoppedStays(c, f, l, addresses[1..], value);
    }
  }

  lemma NoneToWrite(c: Config, f: Faults, l: Link, addresses: seq<nat>, value: bool)
    requires |addresses| == 0
    ensures WriteEach(c, f, l, addresses, value) == l
  {
  }

  lemma StoppedStarts(c: Config, f: Faults, l: Link, value: bool)
    requires !l.ok && c.addresses != []
    ensures WriteStarts(c, f, l, value) == l
  {
    StoppedStays(c, f, l, c.addresses, value);
  }

  lemma {:induction false} StoppedPulses(c: Config, f: Faults, l: Link, labels: seq<string>)
    requires !l.ok && |c.labels| == |c.addresses| && forall k :: 0 <= k < |labels| ==> Lookup(c, labels[k]).Some?
    ensures PulseLabels(c, f, l, labels) == l
    decreases |labels|
  {
    if labels != [] {
      StoppedPulses(c, f, l, labels[1..]);
    }
  }

  lemma NoneToPulse(c: Config, f: Faults, l: Link, labels: seq<string>)
    requires |labels| == 0 && |c.labels| == |c.addresses|
    ensures PulseLabels(c, f, l, labels) == l
  {
  }

  // ---------------------------------------------------------------- batch and loop

  // The ladder has scanned since the last write.
  predicate Settled(c: Config, d: Device) {
    d.latched == Scan(c, d).latched
  }

  lemma RangeHas(first: nat, count: nat, a: nat)
    ensures a in Range(first, count) <==> first <= a < first + count
  {
    if first <= a < first + count {
      assert Nth(first, a - first) == a;
    }
  }

  lemma {:induction false} AddressAt(addresses: seq<nat>, i: nat)
    requires Contiguous(addresses) && i < |addresses|
    ensures addresses[i] == addresses[0] + i
    decreases i
  {
    if i > 0 {
      AddressAt(addresses, i - 1);
    }
  }

  lemma StartsAreRange(c: Config)
    requires Contiguous(c.addresses) && c.addresses != []
    ensures Starts(c) == Range(c.addresses[0], |c.addresses|)
  {
    forall a: nat
      ensures a in Starts(c) <==> a in Range(c.addresses[0], |c.addresses|)
    {
      RangeHas(c.addresses[0], |c.addresses|, a);
      if a in Starts(c) {
        var i :| 0 <= i < |c.addresses| && c.addresses[i] == a;
        AddressAt(c.addresses, i);
      }
      if c.addresses[0] <= a < c.addresses[0] + |c.addresses| {
        AddressAt(c.addresses, a - c.addresses[0]);
        assert c.addresses[a - c.addresses[0]] in Starts(c);
      }
    }
  }

  ghost predicate NoFaults(f: Faults) {
    forall n :: f(n) == Fine
  }

  // The reset coil is none of the start coils.
  predicate ResetApart(c: Config) {
    c.resetAddress !in Starts(c)
  }

  // Writing some start coils and then others is writing them together.
  lemma WritesMerge(c: Config, d: Device, a: set<nat>, b: set<nat>, value: bool)
    requires Settled(c, d) && ResetApart(c) && a <= Starts(c) && b <= Starts(c)
    ensures Scan(c, Put(Scan(c, Put(d, a, value)), b, value)) == Scan(c, Put(d, a + b, value))
    ensures Settled(c, Scan(c, Put(d, a, value)))
  {
    hide Starts;
  }

  lemma {:induction false} LoopIsOneWrite(c: Config, f: Faults, l: Link, addresses: seq<nat>, value: bool)
    requires NoFaults(f) && l.ok && Settled(c, l.dev) && ResetApart(c) && Elements(addresses) <= Starts(c)
    ensures WriteEach(c, f, l, addresses, value).ok
    ensures WriteEach(c, f, l, addresses, value).dev == Scan(c, Put(l.dev, Elements(addresses), value))
    decreases |addresses|
  {
    if addresses != [] {
      assert Elements(addresses) == {addresses[0]} + Elements(addresses[1..]) by {
        assert forall i :: 1 <= i < |addresses| ==> addresses[i] == addresses[1..][i - 1];
      }
      hide Starts, Elements;
      WritesMerge(c, l.dev, {addresses[0]}, Elements(addresses[1..]), value);
      LoopIsOneWrite(c, f, Write(c, f, l, {addresses[0]}, value), addresses[1..], value);
    } else {
      assert Put(l.dev, {}, value) == l.dev;
    }
  }

  /** The batch write and the loop over single writes leave the same coils and the same latches:
      whichever of the two the addresses allow, all start coils are written as one. */
  lemma BatchIsLoop(c: Config, f: Faults, l: Link, value: bool)
    requires NoFaults(f) && l.ok && Settled(c, l.dev) && ResetApart(c) && c.addresses != []
    ensures WriteStarts(c, f, l, value).ok
    ensures WriteStarts(c, f, l, value).dev == Scan(c, Put(l.dev, Starts(c), value))
    ensures WriteStarts(c, f, l, value).dev == WriteEach(c, f, l, c.addresses, value).dev
  {
    LoopIsOneWrite(c, f, l, c.addresses, value);
    if Contiguous(c.addresses) {
      StartsAreRange(c);
    }
  }

  // ---------------------------------------------------------------- whole runs

  datatype Call = SetState(state: SystemState, apply: bool, reset: bool) | PulseStarts | ResetAll

  function After(c: Config, f: Faults, l: Link, call: Call): Link
    requires Valid(c)
  {
    match call
    case SetState(state, apply, reset) => if apply then ApplyState(c, f, l, state, reset) else l
    case PulseStarts => WriteStarts(c, f, WriteStarts(c, f, l, true), false)
    case ResetAll => Pulse(c, f, l, {c.resetAddress})
  }

  function Calls(c: Config, f: Faults, l: Link, calls: seq<Call>): Link
    requires Valid(c)
    decreases |calls|
  {
    if calls == [] then l else After(c, f, Calls(c, f, l, calls[..|calls| - 1]), calls[|calls| - 1])
  }

  // The addresses of a list of labels.
  function AddressesOf(c: Config, labels: seq<string>): set<nat>
    requires |c.labels| == |c.addresses|
  {
    set k | 0 <= k < |labels| && Lookup(c, labels[k]).Some? :: Lookup(c, labels[k]).value
  }

  // What a call latches, and whether it first clears all latches.
  function Latches(c: Config, call: Call): set<nat>
    requires Valid(c)
  {
    match call
    case SetState(state, apply, _) => if apply then AddressesOf(c, c.stateOutputs[state]) else {}
    case PulseStarts => Starts(c)
    case ResetAll => {}
  }

  predicate Clears(call: Call) {
    call.ResetAll? || (call.SetState? && call.apply && call.reset)
  }

  // The call pulses no start coil that is the reset coil.
  predicate Apart(c: Config, call: Call)
    requires Valid(c)
  {
    c.resetAddress !in Latches(c, call)
  }

  lemma PulseLatches(c: Config, f: Faults, l: Link, a: nat)
    requires NoFaults(f) && l.ok && l.dev.on == {} && a in Starts(c) && a != c.resetAddress
    ensures var t := Pulse(c, f, l, {a}); t.ok && t.dev == Device({}, l.dev.latched + {a})
  {
    hide Starts;
  }

  lemma PulseResets(c: Config, f: Faults, l: Link)
    requires NoFaults(f) && l.ok && l.dev.on == {}
    ensures var t := Pulse(c, f, l, {c.resetAddress}); t.ok && t.dev == Device({}, {})
  {
    hide Starts;
  }

  lemma LookupIsStart(c: Config, name: string)
    requires |c.labels| == |c.addresses| && Lookup(c, name).Some?
    ensures Lookup(c, name).value in Starts(c)
  {
    LookupFromIs(c, name, 0);
  }

  lemma {:induction false} LabelsLatch(c: Config, f: Faults, l: Link, labels: seq<string>)
    requires |c.labels| == |c.addresses| && forall k :: 0 <= k < |labels| ==> Lookup(c, labels[k]).Some?
    requires NoFaults(f) && l.ok && l.dev.on == {} && c.resetAddress !in AddressesOf(c, labels)
    ensures var t := PulseLabels(c, f, l, labels); t.ok && t.dev == Device({}, l.dev.latched + AddressesOf(c, labels))
    decreases |labels|
  {
    hide Starts, Pulse, Lookup;
    if labels != [] {
      var a := Lookup(c, labels[0]).value;
      AddressesOfStep(c, labels);
      LookupIsStart(c, labels[0]);
      PulseLatches(c, f, l, a);
      LabelsLatch(c, f, Pulse(c, f, l, {a}), labels[1..]);
    } else {
      assert AddressesOf(c, labels) == {};
    }
  }

  lemma AddressesOfStep(c: Config, labels: seq<string>)
    requires |c.labels| == |c.addresses| && labels != [] && Lookup(c, labels[0]).Some?
    ensures AddressesOf(c, labels) == {Lookup(c, labels[0]).value} + AddressesOf(c, labels[1..])
  {
    assert forall k :: 1 <= k < |labels| ==> labels[k] == labels[1..][k - 1];
  }

  lemma StartsLatch(c: Config, f: Faults, l: Link)
    requires NoFaults(f) && l.ok && l.dev.on == {} && ResetApart(c) && c.addresses != []
    ensures var t := WriteStarts(c, f, WriteStarts(c, f, l, true), false);
            t.ok && t.dev == Device({}, l.dev.latched + Starts(c))
  {
    hide Starts, WriteStarts;
    BatchIsLoop(c, f, l, true);
    var mid := WriteStarts(c, f, l, true);
    assert mid.dev == Device(Starts(c), l.dev.latched + Starts(c));
    BatchIsLoop(c, f, mid, false);
  }

  lemma CallLatches(c: Config, f: Faults, l: Link, call: Call)
    requires Valid(c) && NoFaults(f) && l.ok && l.dev.on == {} && Apart(c, call)
    ensures var t := After(c, f, l, call);
            t.ok && t.dev == Device({}, (if Clears(call) then {} else l.dev.latched) + Latches(c, call))
  {
    hide Starts, Pulse, PulseLabels, WriteStarts, AddressesOf;
    match call
    case SetState(state, apply, reset) =>
      if apply {
        PulseResets(c, f, l);
        LabelsResolve(c, state);
        LabelsLatch(c, f, if reset then Pulse(c, f, l, {c.resetAddress}) else l, c.stateOutputs[state]);
      }
    case PulseStarts => StartsLatch(c, f, l);
    case ResetAll => PulseResets(c, f, l);
  }

  // Call i latches the output, and no call after it clears the latches.
  ghost predicate HeldSince(c: Config, calls: seq<Call>, a: nat, i: nat)
    requires Valid(c)
  {
    i < |calls| && a in Latches(c, calls[i]) && forall j :: i < j < |calls| ==> !Clears(calls[j])
  }

  // The law of the latches: an output is held exactly when some call latched it and no call
  // cleared the latches since, or when it was held at the start and no call cleared them.
  ghost predicate HeldByLaw(c: Config, l: Link, calls: seq<Call>, a: nat)
    requires Valid(c)
  {
    || (exists i: nat :: HeldSince(c, calls, a, i))
    || (a in l.dev.latched && forall j :: 0 <= j < |calls| ==> !Clears(calls[j]))
  }

  ghost predicate LawHolds(c: Config, f: Faults, l: Link, calls: seq<Call>)
    requires Valid(c)
  {
    forall a :: a in Calls(c, f, l, calls).dev.latched <==> HeldByLaw(c, l, calls, a)
  }

  /** After any error-free run of calls that pulse no start coil wired as the reset coil, every
      coil is off again and the latches obey the law. */
  lemma {:induction false} LatchesAreHistory(c: Config, f: Faults, l: Link, calls: seq<Call>)
    requires Valid(c) && NoFaults(f) && l.ok && l.dev.on == {}
    requires forall i :: 0 <= i < |calls| ==> Apart(c, calls[i])
    ensures Calls(c, f, l, calls).ok && Calls(c, f, l, calls).dev.on == {}
    ensures LawHolds(c, f, l, calls)
    decreases |calls|
  {
    hide After, Latches;
    if calls != [] {
      var n := |calls| - 1;
      var before := calls[..n];
      hide HeldSince;
      assert Apart(c, calls[n]);
      assert forall i :: 0 <= i < n ==> Apart(c, calls[i]);
      hide Apart;
      LatchesAreHistory(c, f, l, before);
      CallLatches(c, f, Calls(c, f, l, before), calls[n]);
      forall a: nat
        ensures a in Calls(c, f, l, calls).dev.latched <==> HeldByLaw(c, l, calls, a)
      {
        LawGrows(c, l, calls, a);
        assert a in Calls(c, f, l, before).dev.latched <==> HeldByLaw(c, l, before, a);
      }
    }
  }

  lemma LawGrows(c: Config, l: Link, calls: seq<Call>, a: nat)
    requires Valid(c) && calls != []
    ensures var n := |calls| - 1;
            HeldByLaw(c, l, calls, a)
            == (a in Latches(c, calls[n]) || (!Clears(calls[n]) && HeldByLaw(c, l, calls[..n], a)))
  {
    hide Latches, Clears;
    var n := |calls| - 1;
    HistoryGrows(c, calls, a);
    hide HeldSince;
    forall j | 0 <= j < n ensures calls[j] == calls[..n][j] {
    }
  }

  lemma HistoryGrows(c: Config, calls: seq<Call>, a: nat)
    requires Valid(c) && calls != []
    ensures var n := |calls| - 1;
            (exists i: nat :: HeldSince(c, calls, a, i))
            == (a in Latches(c, calls[n]) || (!Clears(calls[n]) && exists i: nat :: HeldSince(c, calls[..n], a, i)))
  {
    hide Latches;
    var n := |calls| - 1;
    var before := calls[..n];
    if a in Latches(c, calls[n]) {
      assert HeldSince(c, calls, a, n);
    }
    if i: nat :| HeldSince(c, before, a, i) {
      if !Clears(calls[n]) {
        assert HeldSince(c, calls, a, i);
      }
    }
    if i: nat :| HeldSince(c, calls, a, i) {
      if i < n {
        assert !Clears(calls[n]) && HeldSince(c, before, a, i);
      }
    }
  }

  /** With distinct labels and addresses this is a statement about names: a state change latches
      circuit i exactly when one of the state's labels names it. */
  lemma StateLatchesIff(c: Config, state: SystemState, reset: bool, i: nat)
    requires Valid(c) && DistinctLabels(c) && i < |c.labels|
    requires forall j, k :: 0 <= j < k < |c.addresses| ==> c.addresses[j] != c.addresses[k]
    ensures c.addresses[i] in Latches(c, SetState(state, true, reset)) <==> Known(c.stateOutputs[state], c.labels[i])
  {
    var labels := c.stateOutputs[state];
    forall k | 0 <= k < |labels|
      ensures Lookup(c, labels[k]) == Some(c.addresses[i]) <==> Upper(labels[k]) == Upper(c.labels[i])
    {
      LookupIff(c, labels[k], i);
    }
    hide Upper, Lookup;
  }

  // Once the reset coil is on, and from then on, the output of that coil is not held.
  lemma WriteDropsReset(c: Config, f: Faults, l: Link, addresses: set<nat>, value: bool)
    requires NoFaults(f) && l.ok
    requires c.resetAddress !in l.dev.latched || (value && c.resetAddress in addresses)
    ensures var t := Write(c, f, l, addresses, value); t.ok && c.resetAddress !in t.dev.latched
  {
    hide Starts;
  }

  lemma {:induction false} EachDropsReset(c: Config, f: Faults, l: Link, addresses: seq<nat>, value: bool)
    requires NoFaults(f) && l.ok
    requires c.resetAddress !in l.dev.latched || (value && c.resetAddress in addresses)
    ensures var t := WriteEach(c, f, l, addresses, value); t.ok && c.resetAddress !in t.dev.latched
    decreases |addresses|
  {
    hide Write;
    if addresses != [] {
      assert NoFaults(f) ==> Write(c, f, l, {addresses[0]}, value).ok by {
        WriteGoesThrough(c, f, l, {addresses[0]}, value);
      }
      if c.resetAddress !in l.dev.latched || (value && c.resetAddress == addresses[0]) {
        WriteDropsReset(c, f, l, {addresses[0]}, value);
      }
      EachDropsReset(c, f, Write(c, f, l, {addresses[0]}, value), addresses[1..], value);
    }
  }

  lemma WriteGoesThrough(c: Config, f: Faults, l: Link, addresses: set<nat>, value: bool)
    requires NoFaults(f) && l.ok
    ensures Write(c, f, l, addresses, value).ok
  {
  }

  lemma StartsDropReset(c: Config, f: Faults, l: Link, value: bool)
    requires NoFaults(f) && l.ok && c.addresses != []
    requires c.resetAddress !in l.dev.latched || (value && c.resetAddress in Starts(c))
    ensures var t := WriteStarts(c, f, l, value); t.ok && c.resetAddress !in t.dev.latched
  {
    hide Write;
    if Contiguous(c.addresses) {
      StartsAreRange(c);
      WriteDropsReset(c, f, l, Range(c.addresses[0], |c.addresses|), value);
    } else {
      EachDropsReset(c, f, l, c.addresses, value);
    }
  }

  lemma {:induction false} LabelsDropReset(c: Config, f: Faults, l: Link, labels: seq<string>)
    requires |c.labels| == |c.addresses| && forall k :: 0 <= k < |labels| ==> Lookup(c, labels[k]).Some?
    requires NoFaults(f) && l.ok
    requires c.resetAddress !in l.dev.latched || c.resetAddress in AddressesOf(c, labels)
    ensures var t := PulseLabels(c, f, l, labels); t.ok && c.resetAddress !in t.dev.latched
    decreases |labels|
  {
    hide Write, Lookup;
    if labels != [] {
      var a := Lookup(c, labels[0]).value;
      AddressesOfStep(c, labels);
      hide AddressesOf;
      WriteGoesThrough(c, f, l, {a}, true);
      var on := Write(c, f, l, {a}, true);
      WriteGoesThrough(c, f, on, {a}, false);
      if c.resetAddress !in l.dev.latched || a == c.resetAddress {
        WriteDropsReset(c, f, l, {a}, true);
        WriteDropsReset(c, f, on, {a}, false);
      }
      LabelsDropReset(c, f, Pulse(c, f, l, {a}), labels[1..]);
    } else {
      assert AddressesOf(c, labels) == {};
    }
  }

  // A call that pulses the reset coil as a start coil leaves that output off.
  lemma CallDropsReset(c: Config, f: Faults, l: Link, call: Call)
    requires Valid(c) && NoFaults(f) && l.ok && l.dev.on == {} && !Apart(c, call)
    ensures c.resetAddress !in After(c, f, l, call).dev.latched
  {
    hide Pulse, PulseLabels, WriteStarts, AddressesOf, Starts;
    match call
    case SetState(state, apply, reset) =>
      if apply {
        PulseResets(c, f, l);
        LabelsResolve(c, state);
        LabelsDropReset(c, f, if reset then Pulse(c, f, l, {c.resetAddress}) else l, c.stateOutputs[state]);
      }
    case PulseStarts =>
      StartsDropReset(c, f, l, true);
      StartsDropReset(c, f, WriteStarts(c, f, l, true), false);
    case ResetAll =>
  }

  lemma OneCall(c: Config, f: Faults, l: Link, call: Call)
    requires Valid(c)
    ensures Calls(c, f, l, [call]) == After(c, f, l, call)
  {
    assert [call][..0] == [];
  }

  /** The law for one call: it holds exactly if the call pulses no start coil that is the reset
      coil; such an output is claimed by the law and never held. */
  lemma CallLawIff(c: Config, f: Faults, l: Link, call: Call)
    requires Valid(c) && NoFaults(f) && l.ok && l.dev.on == {}
    ensures LawHolds(c, f, l, [call]) <==> Apart(c, call)
  {
    hide After, Latches;
    if Apart(c, call) {
      LatchesAreHistory(c, f, l, [call]);
    } else {
      CallDropsReset(c, f, l, call);
      OneCall(c, f, l, call);
      assert HeldSince(c, [call], c.resetAddress, 0);
      assert HeldByLaw(c, l, [call], c.resetAddress);
    }
  }

  /** The law for the client: it holds for all runs of calls exactly if the reset coil is none of
      the start coils, which the constructor does not check. */
  lemma LawIffResetApart(c: Config, f: Faults, l: Link)
    requires Valid(c) && NoFaults(f) && l.ok && l.dev.on == {}
    ensures (forall calls :: LawHolds(c, f, l, calls)) <==> ResetApart(c)
  {
    hide LawHolds, Starts;
    if ResetApart(c) {
      forall calls
        ensures LawHolds(c, f, l, calls)
      {
        forall i | 0 <= i < |calls|
          ensures Apart(c, calls[i])
        {
          LatchesAreStarts(c, calls[i]);
        }
        LatchesAreHistory(c, f, l, calls);
      }
    } else {
      CallLawIff(c, f, l, PulseStarts);
      assert !LawHolds(c, f, l, [PulseStarts]);
    }
  }

  lemma LatchesAreStarts(c: Config, call: Call)
    requires Valid(c)
    ensures Latches(c, call) <= Starts(c)
  {
    hide Lookup, Starts;
    forall a | a in Latches(c, call)
      ensures a in Starts(c)
    {
      if call.SetState? && call.apply {
        var labels := c.stateOutputs[call.state];
        var k :| 0 <= k < |labels| && Lookup(c, labels[k]).Some? && Lookup(c, labels[k]).value == a;
        LookupIsStart(c, labels[k]);
      }
    }
  }

  // ---------------------------------------------------------------- errors

  lemma PulseLeavesOne(c: Config, f: Faults, l: Link, a: nat)
    requires l.ok && l.dev.on == {}
    ensures var t := Pulse(c, f, l, {a}); t.dev.on <= {a} && (t.ok ==> t.dev.on == {})
  {
    hide Starts;
  }

  lemma {:induction false} LabelsLeaveOne(c: Config, f: Faults, l: Link, labels: seq<string>) returns (a: nat)
    requires |c.labels| == |c.addresses| && forall k :: 0 <= k < |labels| ==> Lookup(c, labels[k]).Some?
    requires l.ok && l.dev.on == {}
    ensures var t := PulseLabels(c, f, l, labels); t.dev.on <= {a} && (t.ok ==> t.dev.on == {})
    decreases |labels|
  {
    hide Pulse;
    a := c.resetAddress;
    if labels != [] {
      var b := Lookup(c, labels[0]).value;
      var next := Pulse(c, f, l, {b});
      PulseLeavesOne(c, f, l, b);
      if next.ok {
        a := LabelsLeaveOne(c, f, next, labels[1..]);
      } else {
        StoppedPulses(c, f, next, labels[1..]);
        a := b;
      }
    }
  }

  /** Whatever write of a state change fails, and whether or not it took effect, at most one coil
      stays on; after a change that goes through none does. */
  lemma FailedChangeLeavesOneCoil(c: Config, f: Faults, l: Link, state: SystemState, reset: bool) returns (a: nat)
    requires Valid(c) && l.ok && l.dev.on == {}
    ensures var t := ApplyState(c, f, l, state, reset); t.dev.on <= {a} && (t.ok ==> t.dev.on == {})
  {
    hide Pulse, PulseLabels;
    LabelsResolve(c, state);
    PulseLeavesOne(c, f, l, c.resetAddress);
    var first := if reset then Pulse(c, f, l, {c.resetAddress}) else l;
    if first.ok {
      a := LabelsLeaveOne(c, f, first, c.stateOutputs[state]);
    } else {
      StoppedPulses(c, f, first, c.stateOutputs[state]);
      a := c.resetAddress;
    }
  }

  // How many of n writes in a row, the first with number `from`, take effect before an error
  // stops them; and whether none does.
  function Effective(f: Faults, from: nat, n: nat): (m: nat)
    ensures m <= n
    decreases n
  {
    if n == 0 then 0
    else if f(from) == ErrorBefore then 0
    else if f(from) == ErrorAfter then 1
    else 1 + Effective(f, from + 1, n - 1)
  }

  predicate Undisturbed(f: Faults, from: nat, n: nat) {
    forall k :: from <= k < from + n ==> f(k) == Fine
  }

  lemma {:induction false} LoopReaches(c: Config, f: Faults, l: Link, addresses: seq<nat>, value: bool)
    requires l.ok
    ensures var t, done := WriteEach(c, f, l, addresses, value), addresses[..Effective(f, l.writes, |addresses|)];
            && t.dev.on == (if value then l.dev.on + Elements(done) else l.dev.on - Elements(done))
            && t.ok == Undisturbed(f, l.writes, |addresses|)
            && (t.ok ==> t.writes == l.writes + |addresses| && done == addresses)
    decreases |addresses|
  {
    hide Starts;
    if addresses != [] {
      var next, rest := Write(c, f, l, {addresses[0]}, value), addresses[1..];
      var done := addresses[..Effective(f, l.writes, |addresses|)];
      if next.ok {
        LoopReaches(c, f, next, rest, value);
        var more := rest[..Effective(f, next.writes, |rest|)];
        assert done == [addresses[0]] + more;
        ElementsHead(addresses[0], more);
      } else {
        StoppedStays(c, f, next, rest, value);
        assert f(l.writes) != Fine;
        if done != [] {
          assert done == [addresses[0]] + [];
          ElementsHead(addresses[0], []);
        }
      }
    }
  }

  lemma ElementsHead(a: nat, more: seq<nat>)
    ensures Elements([a] + more) == {a} + Elements(more)
  {
    var all := [a] + more;
    assert all[0] == a;
    forall i | 0 <= i < |more| ensures more[i] == all[i + 1] {
    }
  }

  // The writes of one phase, and the addresses written by the first m of them.
  function Phase(c: Config): nat {
    if Contiguous(c.addresses) then 1 else |c.addresses|
  }

  function WrittenBy(c: Config, m: nat): (s: set<nat>)
    requires m <= Phase(c)
    ensures m == 0 ==> s == {}
    ensures m == Phase(c) ==> s == Starts(c)
  {
    if Contiguous(c.addresses) then (if m == 0 then {} else Starts(c)) else Elements(c.addresses[..m])
  }

  lemma PhaseReaches(c: Config, f: Faults, l: Link, value: bool)
    requires l.ok && c.addresses != []
    ensures var t, done := WriteStarts(c, f, l, value), WrittenBy(c, Effective(f, l.writes, Phase(c)));
            && t.dev.on == (if value then l.dev.on + done else l.dev.on - done)
            && t.ok == Undisturbed(f, l.writes, Phase(c))
            && (t.ok ==> t.writes == l.writes + Phase(c) && done == Starts(c))
  {
    if Contiguous(c.addresses) {
      StartsAreRange(c);
      hide Starts, Range;
    } else {
      LoopReaches(c, f, l, c.addresses, value);
      hide WriteEach, Elements;
    }
  }

  /** Which start coils a pulse of all of them leaves on, whatever write fails, and whether or not
      it took effect: those written so far if the failing write switches on, those not yet written
      if it switches off. */
  lemma FailedPulseLeaves(c: Config, f: Faults, l: Link)
    requires l.ok && l.dev.on == {} && c.addresses != []
    ensures var t, n := WriteStarts(c, f, WriteStarts(c, f, l, true), false), Phase(c);
            && t.ok == Undisturbed(f, l.writes, 2 * n)
            && t.dev.on ==
               (if Undisturbed(f, l.writes, n) then Starts(c) - WrittenBy(c, Effective(f, l.writes + n, n))
                else WrittenBy(c, Effective(f, l.writes, n)))
  {
    hide WriteStarts, Effective, WrittenBy, Starts;
    PhaseReaches(c, f, l, true);
    var mid := WriteStarts(c, f, l, true);
    if mid.ok {
      PhaseReaches(c, f, mid, false);
    } else {
      StoppedStarts(c, f, mid, false);
    }
  }

  // The first write that does not go through is the w-th from here.
  predicate FirstFault(f: Faults, from: nat, w: nat) {
    Undisturbed(f, from, w) && f(from + w) != Fine
  }

  // The pulses that have switched their coil on by then.
  function Switched(f: Faults, from: nat, w: nat): nat {
    (w + 1) / 2 + (if w % 2 == 0 && f(from + w) == ErrorAfter then 1 else 0)
  }

  lemma PulseAtFault(c: Config, f: Faults, l: Link, a: nat, w: nat)
    requires l.ok && l.dev.on == {} && a in Starts(c) && a != c.resetAddress && FirstFault(f, l.writes, w)
    ensures var t := Pulse(c, f, l, {a});
            && t.ok == (w >= 2)
            && t.dev.latched == (if w >= 2 || Switched(f, l.writes, w) == 1 then l.dev.latched + {a} else l.dev.latched)
            && (w >= 2 ==> t.dev.on == {} && t.writes == l.writes + 2)
            && (w < 2 ==> Switched(f, l.writes, w) <= 1)
  {
    assert w >= 1 ==> f(l.writes) == Fine;
    assert w >= 2 ==> f(l.writes + 1) == Fine;
    hide Starts;
  }

  lemma {:induction false} LabelsLatchInOrder(c: Config, f: Faults, l: Link, labels: seq<string>, w: nat)
    requires |c.labels| == |c.addresses| && forall k :: 0 <= k < |labels| ==> Lookup(c, labels[k]).Some?
    requires l.ok && l.dev.on == {} && c.resetAddress !in AddressesOf(c, labels)
    requires FirstFault(f, l.writes, w) && w < 2 * |labels|
    ensures var n := Switched(f, l.writes, w);
            && n <= |labels|
            && PulseLabels(c, f, l, labels).dev.latched == l.dev.latched + AddressesOf(c, labels[..n])
    decreases |labels|
  {
    hide Starts, Pulse, Lookup, AddressesOf;
    var a := Lookup(c, labels[0]).value;
    AddressesOfStep(c, labels);
    LookupIsStart(c, labels[0]);
    PulseAtFault(c, f, l, a, w);
    var next, rest, n := Pulse(c, f, l, {a}), labels[1..], Switched(f, l.writes, w);
    if w >= 2 {
      FaultLater(f, l.writes, w);
      LabelsLatchInOrder(c, f, next, rest, w - 2);
      AddressesOfStep(c, labels[..n]);
      assert labels[..n][1..] == rest[..n - 1];
    } else {
      StoppedPulses(c, f, next, rest);
      AddressesOfFirst(c, labels);
      assert labels[..n] == if n == 0 then [] else [labels[0]];
    }
  }

  lemma FaultLater(f: Faults, from: nat, w: nat)
    requires FirstFault(f, from, w) && w >= 2
    ensures FirstFault(f, from + 2, w - 2) && Switched(f, from, w) == 1 + Switched(f, from + 2, w - 2)
  {
  }

  lemma AddressesOfFirst(c: Config, labels: seq<string>)
    requires |c.labels| == |c.addresses| && labels != [] && Lookup(c, labels[0]).Some?
    ensures AddressesOf(c, []) == {} && AddressesOf(c, [labels[0]]) == {Lookup(c, labels[0]).value}
  {
    assert AddressesOf(c, []) == {};
    assert |[labels[0]][1..]| == 0;
    AddressesOfStep(c, [labels[0]]);
  }

  /** And which outputs a state change latches before it fails, once its reset is through: those of
      the first labels of the state, in their order, up to the failing write. */
  lemma FailedChangeLatchesInOrder(c: Config, f: Faults, l: Link, state: SystemState, reset: bool, w: nat)
    requires Valid(c) && l.ok && l.dev.on == {} && Apart(c, SetState(state, true, reset))
    requires reset ==> Undisturbed(f, l.writes, 2)
    requires FirstFault(f, l.writes + (if reset then 2 else 0), w) && w < 2 * |c.stateOutputs[state]|
    ensures var n := Switched(f, l.writes + (if reset then 2 else 0), w);
            && n <= |c.stateOutputs[state]|
            && ApplyState(c, f, l, state, reset).dev.latched
               == (if reset then {} else l.dev.latched) + AddressesOf(c, c.stateOutputs[state][..n])
  {
    LabelsResolve(c, state);
    hide PulseLabels, AddressesOf, Starts;
    var first := if reset then Pulse(c, f, l, {c.resetAddress}) else l;
    if reset {
      assert f(l.writes) == Fine && f(l.writes + 1) == Fine;
    }
    assert first.ok && first.dev == Device({}, if reset then {} else l.dev.latched);
    hide Pulse;
    LabelsLatchInOrder(c, f, first, c.stateOutputs[state], w);
  }
}
