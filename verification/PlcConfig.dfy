/** The PLC's configuration: what its constructor accepts, how state outputs are normalised,
    and how a coil name finds its address. Upper-casing is that of the ASCII letters. */
module PlcConfig {
  import opened Wrappers

  datatype SystemState = Idle | Listening | Inferring | Moving | Error | EStop | Watchdog

  // The output labels of a state as given: one text with commas, or a list.
  datatype RawLabels = Joined(text: string) | Listed(labels: seq<string>)

  // None stands for a state name that is not one of the seven.
  type RawOutputs = seq<(Option<SystemState>, RawLabels)>

  type Outputs = map<SystemState, seq<string>>

  datatype RawConfig = RawConfig(
    labels: seq<string>, addresses: seq<nat>, outputs: seq<string>,
    resetLabel: string, resetAddress: nat, pulseSeconds: real,
    watchdogLabel: string, watchdogAddress: Option<nat>, estopLabel: string, estopAddress: Option<nat>,
    stateOutputs: RawOutputs)

  datatype Config = Config(labels: seq<string>, addresses: seq<nat>, resetAddress: nat, stateOutputs: Outputs)

  function Upper(s: string): (r: string)
    ensures |r| == |s|
  {
    seq(|s|, i requires 0 <= i < |s| => if 'a' <= s[i] <= 'z' then s[i] - 'a' + 'A' else s[i])
  }

  // The same letter in either case, or the same character.
  predicate SameLetter(a: char, b: char) {
    || a == b
    || ('a' <= a <= 'z' && a as int - b as int == 32)
    || ('a' <= b <= 'z' && b as int - a as int == 32)
  }

  /** Names are compared letter by letter, without regard to case. */
  lemma UpperFoldsCase(s: string, t: string)
    ensures Upper(s) == Upper(t) <==> |s| == |t| && forall i :: 0 <= i < |s| ==> SameLetter(s[i], t[i])
  {
    forall i | 0 <= i < |s| && i < |t|
      ensures Upper(s)[i] == Upper(t)[i] <==> SameLetter(s[i], t[i])
    {
    }
    if Upper(s) == Upper(t) {
      forall i | 0 <= i < |s| ensures SameLetter(s[i], t[i]) {
        assert Upper(s)[i] == Upper(t)[i];
      }
    }
  }

  predicate IsSpace(c: char) {
    c == ' ' || c == '\t' || c == '\n' || c == '\r'
  }

  function Strip(s: string): string
    decreases |s|
  {
    if s == "" then s
    else if IsSpace(s[0]) then Strip(s[1..])
    else if IsSpace(s[|s| - 1]) then Strip(s[..|s| - 1])
    else s
  }

  function SplitCommas(s: string): seq<string>
    decreases |s|
  {
    if s == "" then [""]
    else
      var later := SplitCommas(s[1..]);
      if s[0] == ',' then [""] + later
      else if later == [] then [[s[0]]]
      else [[s[0]] + later[0]] + later[1..]
  }

  // The parts with commas between them.
  function JoinCommas(parts: seq<string>): string
    decreases |parts|
  {
    if parts == [] then "" else if |parts| == 1 then parts[0] else parts[0] + "," + JoinCommas(parts[1..])
  }

  lemma JoinHead(part: string, later: seq<string>)
    requires later != []
    ensures JoinCommas([part] + later) == part + "," + JoinCommas(later)
  {
    assert ([part] + later)[1..] == later;
  }

  lemma JoinLonger(c: char, part: string, more: seq<string>)
    ensures JoinCommas([[c] + part] + more) == [c] + JoinCommas([part] + more)
  {
    if more != [] {
      JoinHead([c] + part, more);
      JoinHead(part, more);
      assert [c] + part + "," + JoinCommas(more) == [c] + (part + "," + JoinCommas(more));
    }
  }

  /** Splitting takes a text apart at its commas and nowhere else. */
  lemma {:induction false} SplitCommasJoins(s: string)
    ensures SplitCommas(s) != [] && JoinCommas(SplitCommas(s)) == s
    ensures forall k :: 0 <= k < |SplitCommas(s)| ==> ',' !in SplitCommas(s)[k]
    decreases |s|
  {
    hide JoinCommas;
    if s != "" {
      var later := SplitCommas(s[1..]);
      SplitCommasJoins(s[1..]);
      if s[0] == ',' {
        JoinHead("", later);
        assert s == "" + "," + s[1..];
      } else {
        JoinLonger(s[0], later[0], later[1..]);
        assert [later[0]] + later[1..] == later && s == [s[0]] + s[1..];
      }
    } else {
      JoinNothing();
    }
  }

  lemma JoinNothing()
    ensures JoinCommas([""]) == ""
  {
  }

  predicate AllSpace(s: string) {
    forall i :: 0 <= i < |s| ==> IsSpace(s[i])
  }

  // The text, with a head and a tail of white space around it.
  predicate Padded(s: string, inner: string, a: string, b: string) {
    s == a + inner + b && AllSpace(a) && AllSpace(b)
  }

  /** Stripping takes off the white space at both ends, all of it and nothing else. */
  lemma {:induction false} StripIsInner(s: string) returns (a: string, b: string)
    ensures Padded(s, Strip(s), a, b)
    ensures var inner := Strip(s); inner != "" ==> !IsSpace(inner[0]) && !IsSpace(inner[|inner| - 1])
    decreases |s|
  {
    a, b := "", "";
    if s != "" {
      if IsSpace(s[0]) {
        a, b := StripIsInner(s[1..]);
        assert s == [s[0]] + a + Strip(s) + b;
        a := [s[0]] + a;
      } else if IsSpace(s[|s| - 1]) {
        var n := |s| - 1;
        a, b := StripIsInner(s[..n]);
        assert s == a + Strip(s) + (b + [s[n]]);
        b := b + [s[n]];
      } else {
        assert s == "" + s + "";
      }
    }
  }

  function Cleaned(labels: seq<string>, keepBlank: bool): seq<string>
    decreases |labels|
  {
    if labels == [] then []
    else
      var name := Upper(Strip(labels[0]));
      (if keepBlank || name != "" then [name] else []) + Cleaned(labels[1..], keepBlank)
  }

  // The labels an entry stands for: blank parts of a text are dropped, those of a list are not.
  function LabelsOf(raw: RawLabels): seq<string> {
    match raw
    case Joined(text) => Cleaned(SplitCommas(text), false)
    case Listed(labels) => Cleaned(labels, true)
  }

  predicate NamesState(entry: (Option<SystemState>, RawLabels), state: SystemState) {
    entry.0 == Some(state)
  }

  // Entry i is the last of the first n to name the state.
  predicate LastFor(raw: RawOutputs, n: nat, state: SystemState, i: nat)
    requires n <= |raw|
  {
    i < n && NamesState(raw[i], state) && forall j :: i < j < n ==> !NamesState(raw[j], state)
  }

  // What the first n entries say about a state: the last one that names it counts.
  ghost predicate SaysLast(raw: RawOutputs, n: nat, state: SystemState, labels: seq<string>)
    requires n <= |raw|
  {
    || (exists i: nat :: LastFor(raw, n, state, i) && labels == LabelsOf(raw[i].1))
    || (labels == [] && forall i :: 0 <= i < n ==> !NamesState(raw[i], state))
  }

  lemma SaysMore(raw: RawOutputs, n: nat, state: SystemState, labels: seq<string>, now: seq<string>)
    requires n < |raw| && SaysLast(raw, n, state, labels)
    requires if NamesState(raw[n], state) then now == LabelsOf(raw[n].1) else now == labels
    ensures SaysLast(raw, n + 1, state, now)
  {
    hide LabelsOf;
    if NamesState(raw[n], state) {
      assert LastFor(raw, n + 1, state, n);
    } else if i: nat :| LastFor(raw, n, state, i) && labels == LabelsOf(raw[i].1) {
      assert LastFor(raw, n + 1, state, i);
    }
  }

  // A state is given one list of labels.
  lemma SaysOnce(raw: RawOutputs, n: nat, state: SystemState, a: seq<string>, b: seq<string>)
    requires n <= |raw| && SaysLast(raw, n, state, a) && SaysLast(raw, n, state, b)
    ensures a == b
  {
    hide LabelsOf;
    if i: nat :| LastFor(raw, n, state, i) && a == LabelsOf(raw[i].1) {
      if j: nat :| LastFor(raw, n, state, j) && b == LabelsOf(raw[j].1) {
        assert i == j;
      }
    }
  }

  /** _normalize_system_state_outputs: every state gets labels, those of its last entry. */
  method NormalizeOutputs(raw: RawOutputs) returns (outputs: Option<Outputs>)
    ensures outputs.Some? <==> forall i :: 0 <= i < |raw| ==> raw[i].0.Some?
    ensures outputs.Some? ==>
              forall state :: state in outputs.value && SaysLast(raw, |raw|, state, outputs.value[state])
  {
    hide LabelsOf, SaysLast;
    var normalized: Outputs := map[Idle := [], Listening := [], Inferring := [], Moving := [], Error := [],
                                       EStop := [], Watchdog := []];
    forall state: SystemState
      ensures state in normalized && SaysLast(raw, 0, state, normalized[state])
    {
      NothingSaid(raw, state);
      StatesAreListed(state);
    }
    for n := 0 to |raw|
      invariant forall i :: 0 <= i < n ==> raw[i].0.Some?
      invariant forall state :: state in normalized && SaysLast(raw, n, state, normalized[state])
    {
      if raw[n].0 == None {
        return None;
      }
      var next := normalized[raw[n].0.value := LabelsOf(raw[n].1)];
      forall state: SystemState
        ensures state in next && SaysLast(raw, n + 1, state, next[state])
      {
        SaysMore(raw, n, state, normalized[state], next[state]);
      }
      normalized := next;
    }
    return Some(normalized);
  }

  lemma StatesAreListed(state: SystemState)
    ensures state in [Idle, Listening, Inferring, Moving, Error, EStop, Watchdog]
  {
  }

  lemma NothingSaid(raw: RawOutputs, state: SystemState)
    ensures SaysLast(raw, 0, state, [])
  {
  }

  predicate IsM(name: string) {
    name != "" && Upper(name)[0] == 'M'
  }

  predicate Known(labels: seq<string>, name: string) {
    exists i :: 0 <= i < |labels| && Upper(labels[i]) == Upper(name)
  }

  // A name without an address, or an address without a name.
  predicate HalfGiven(name: string, address: Option<nat>) {
    (name != "") != address.Some?
  }

  // Everything the constructor demands, apart from the state outputs.
  predicate ShapeOk(raw: RawConfig) {
    && |raw.labels| == |raw.addresses| == |raw.outputs| && raw.labels != []
    && raw.pulseSeconds > 0.0 && IsM(raw.resetLabel)
    && (raw.watchdogLabel != "" ==> IsM(raw.watchdogLabel))
    && !HalfGiven(raw.watchdogLabel, raw.watchdogAddress) && !HalfGiven(raw.estopLabel, raw.estopAddress)
    && forall i :: 0 <= i < |raw.labels| ==> IsM(raw.labels[i])
  }

  predicate AllKnown(labels: seq<string>, used: seq<string>) {
    forall k :: 0 <= k < |used| ==> Known(labels, used[k])
  }

  // What holds of every configuration that was accepted.
  ghost predicate Valid(c: Config) {
    && |c.labels| == |c.addresses| && c.labels != []
    && (forall state :: state in c.stateOutputs && AllKnown(c.labels, c.stateOutputs[state]))
  }

  const STATES := [Idle, Listening, Inferring, Moving, Error, EStop, Watchdog]

  /** __post_init__: accepts exactly the configurations of the right shape whose states are
      known and whose output labels are all start coils; None stands for the exception. */
  method PostInit(raw: RawConfig) returns (config: Option<Config>)
    ensures config.Some? ==> ShapeOk(raw) && Valid(config.value)
    ensures config.Some? ==>
              && config.value.labels == raw.labels && config.value.addresses == raw.addresses
              && config.value.resetAddress == raw.resetAddress
              && forall state :: SaysLast(raw.stateOutputs, |raw.stateOutputs|, state, config.value.stateOutputs[state])
    ensures config == None <==> !ShapeOk(raw) || BadOutputs(raw)
  {
    hide SaysLast, LabelsOf, AllKnown, IsM, Known;
    if !(|raw.labels| == |raw.addresses| == |raw.outputs|) {
      return None;
    }
    if raw.labels == [] {
      return None;
    }
    if raw.pulseSeconds <= 0.0 {
      return None;
    }
    if !IsM(raw.resetLabel) {
      return None;
    }
    if raw.watchdogLabel != "" && !IsM(raw.watchdogLabel) {
      return None;
    }
    if raw.watchdogLabel != "" && raw.watchdogAddress == None {
      return None;
    }
    if raw.watchdogAddress != None && raw.watchdogLabel == "" {
      return None;
    }
    if raw.estopLabel != "" && raw.estopAddress == None {
      return None;
    }
    if raw.estopAddress != None && raw.estopLabel == "" {
      return None;
    }
    for i := 0 to |raw.labels|
      invariant forall k :: 0 <= k < i ==> IsM(raw.labels[k])
    {
      if !IsM(raw.labels[i]) {
        return None;
      }
    }
    var outputs := NormalizeOutputs(raw.stateOutputs);
    if outputs == None {
      return None;
    }
    for n := 0 to |STATES|
      invariant forall i :: 0 <= i < n ==> AllKnown(raw.labels, outputs.value[STATES[i]])
    {
      if !AllKnown(raw.labels, outputs.value[STATES[n]]) {
        return None;
      }
    }
    forall state: SystemState
      ensures AllKnown(raw.labels, outputs.value[state])
    {
      var i := Index(state);
      assert STATES[i] == state;
    }
    forall state, labels | SaysLast(raw.stateOutputs, |raw.stateOutputs|, state, labels)
      ensures AllKnown(raw.labels, labels)
    {
      SaysOnce(raw.stateOutputs, |raw.stateOutputs|, state, labels, outputs.value[state]);
    }
    return Some(Config(raw.labels, raw.addresses, raw.resetAddress, outputs.value));
  }

  function Index(state: SystemState): (i: nat)
    ensures i < |STATES| && STATES[i] == state
  {
    match state
    case Idle => 0
    case Listening => 1
    case Inferring => 2
    case Moving => 3
    case Error => 4
    case EStop => 5
    case Watchdog => 6
  }

  // Some state's name is unknown, or the labels it ends up with are not all start coils.
  ghost predicate BadOutputs(raw: RawConfig) {
    || (exists i :: 0 <= i < |raw.stateOutputs| && raw.stateOutputs[i].0 == None)
    || (exists state, labels ::
          SaysLast(raw.stateOutputs, |raw.stateOutputs|, state, labels) && !AllKnown(raw.labels, labels))
  }

  // ---------------------------------------------------------------- lookup

  function LookupFrom(c: Config, name: string, i: nat): Option<nat>
    requires |c.labels| == |c.addresses|
    decreases |c.labels| - i
  {
    if i >= |c.labels| then None
    else if Upper(c.labels[i]) == Upper(name) then Some(c.addresses[i])
    else LookupFrom(c, name, i + 1)
  }

  function Lookup(c: Config, name: string): Option<nat>
    requires |c.labels| == |c.addresses|
  {
    LookupFrom(c, name, 0)
  }

  /** coil_address_for_label; None stands for the exception. */
  method CoilAddressForLabel(c: Config, name: string) returns (address: Option<nat>)
    requires |c.labels| == |c.addresses|
    ensures address == Lookup(c, name)
  {
    var normalized := Upper(name);
    for i := 0 to |c.labels|
      invariant LookupFrom(c, name, i) == Lookup(c, name)
    {
      if Upper(c.labels[i]) == normalized {
        return Some(c.addresses[i]);
      }
    }
    return None;
  }

  lemma {:induction false} LookupFromFinds(c: Config, name: string, i: nat, k: nat)
    requires |c.labels| == |c.addresses| && i <= k < |c.labels| && Upper(c.labels[k]) == Upper(name)
    ensures LookupFrom(c, name, i).Some?
    decreases |c.labels| - i
  {
    if Upper(c.labels[i]) != Upper(name) {
      LookupFromFinds(c, name, i + 1, k);
    }
  }

  /** Lookup never fails on a name an accepted configuration gives to a state. */
  lemma LookupSucceeds(c: Config, state: SystemState, k: nat)
    requires Valid(c) && k < |c.stateOutputs[state]|
    ensures Lookup(c, c.stateOutputs[state][k]).Some?
  {
    var name := c.stateOutputs[state][k];
    assert AllKnown(c.labels, c.stateOutputs[state]);
    var i :| 0 <= i < |c.labels| && Upper(c.labels[i]) == Upper(name);
    LookupFromFinds(c, name, 0, i);
  }

  lemma {:induction false} LookupFromIs(c: Config, name: string, i: nat)
    requires |c.labels| == |c.addresses| && LookupFrom(c, name, i).Some?
    ensures exists k ::
              i <= k < |c.labels| && Upper(c.labels[k]) == Upper(name) && c.addresses[k] == LookupFrom(c, name, i).value
    decreases |c.labels| - i
  {
    if Upper(c.labels[i]) != Upper(name) {
      LookupFromIs(c, name, i + 1);
    }
  }

  predicate DistinctLabels(c: Config) {
    forall i, j :: 0 <= i < j < |c.labels| ==> Upper(c.labels[i]) != Upper(c.labels[j])
  }

  /** With distinct labels and addresses, a name finds circuit i exactly when it names it. */
  lemma LookupIff(c: Config, name: string, i: nat)
    requires |c.labels| == |c.addresses| && i < |c.labels| && DistinctLabels(c)
    requires forall j, k :: 0 <= j < k < |c.addresses| ==> c.addresses[j] != c.addresses[k]
    ensures Lookup(c, name) == Some(c.addresses[i]) <==> Upper(c.labels[i]) == Upper(name)
  {
    if Upper(c.labels[i]) == Upper(name) {
      LookupFromFinds(c, name, 0, i);
    }
    if Lookup(c, name).Some? {
      LookupFromIs(c, name, 0);
    }
  }
}
