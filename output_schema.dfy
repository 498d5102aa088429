/**
 * `ElementDecompose`: a component whose outputs are one port per element
 * parameter, recomputed from the elements on its input either as the
 * parameters every element has ("Get common parameters") or as those any
 * element has ("Get all parameters"), keeping the downstream wiring of every
 * port whose parameter survives, and pruned of unwired ports on request.
 */
module OutputSchema {
  import opened Wrappers
  import opened Ordering

  /**
   * The identity of a `Parameters.ParameterParam` output: its parameter
   * group, its built-in parameter id and its name. Two ports stand for the
   * same parameter exactly when their keys are equal.
   */
  datatype ParamKey = ParamKey(group: int, builtInId: int, name: string)

  /** Outputs are laid out by `ParameterGroup`, then `ParameterBuiltInId`. */
  function KeyRank(k: ParamKey): Rank {
    Rank(k.group, k.builtInId)
  }

  /** A downstream parameter that takes an output as one of its sources. */
  type Recipient = nat

  /** An output port: its parameter and its recipients, in wiring order. */
  datatype Port = Port(key: ParamKey, recipients: seq<Recipient>)

  /** The host-visible calls the component makes, in the order it makes them. */
  datatype Event =
    | UndoRecorded(title: string)          // RecordUndoEvent
    | OutputUnregistered(key: ParamKey)    // Params.UnregisterOutputParameter
    | OutputRegistered(key: ParamKey)      // Params.RegisterOutputParam
    | ParametersChanged                    // Params.OnParametersChanged
    | SolutionExpired                      // ExpireSolution(true)
    | DisplayExpired                       // OnDisplayExpired(false)

  /** An element on the input: null, or the keys of its parameters in enumeration order. */
  type InputElement = Option<seq<ParamKey>>

  function Keys(ports: seq<Port>): (ks: seq<ParamKey>)
    ensures |ks| == |ports|
    ensures forall i :: 0 <= i < |ports| ==> ks[i] == ports[i].key
  {
    if ports == [] then [] else Keys(ports[..|ports| - 1]) + [ports[|ports| - 1].key]
  }

  function KeySet(ks: seq<ParamKey>): set<ParamKey> {
    set k | k in ks
  }

  ghost predicate Distinct<T>(s: seq<T>) {
    forall i, j :: 0 <= i < j < |s| ==> s[i] != s[j]
  }

  /** The layout every output list keeps: no parameter twice, ordered by group and id. */
  ghost predicate WellFormed(ports: seq<Port>) {
    Distinct(Keys(ports)) && SortedBy(Keys(ports), KeyRank)
  }

  predicate IsWired(p: Port) {
    |p.recipients| > 0
  }

  // ----- Aggregation over the input elements.

  /** One step of "Get common parameters": null elements are skipped, the first one seeds the set. */
  function CommonStep(common: Option<set<ParamKey>>, e: InputElement): Option<set<ParamKey>> {
    match e
    case None => common
    case Some(ks) =>
      match common
      case None => Some(KeySet(ks))
      case Some(c) => Some(c * KeySet(ks))
  }

  /** The set "Get common parameters" computes: null while no element is non-null. */
  function CommonOf(elements: seq<InputElement>): Option<set<ParamKey>> {
    if elements == [] then None
    else CommonStep(CommonOf(elements[..|elements| - 1]), elements[|elements| - 1])
  }

  /** The set "Get all parameters" computes. */
  function AllOf(elements: seq<InputElement>): set<ParamKey> {
    if elements == [] then {}
    else
      var e := elements[|elements| - 1];
      AllOf(elements[..|elements| - 1]) + (if e.Some? then KeySet(e.value) else {})
  }

  /**
   * The common set is null exactly when no element is non-null, and then
   * holds exactly the keys that every non-null element has.
   */
  lemma {:induction false} CommonMembership(elements: seq<InputElement>, k: ParamKey)
    ensures CommonOf(elements).Some? <==> exists i :: 0 <= i < |elements| && elements[i].Some?
    ensures CommonOf(elements).Some? ==>
              (k in CommonOf(elements).value <==>
                 forall i :: 0 <= i < |elements| && elements[i].Some? ==> k in elements[i].value)
  {
    if elements != [] {
      var front := elements[..|elements| - 1];
      CommonMembership(front, k);
      assert forall i :: 0 <= i < |front| ==> front[i] == elements[i];
    }
  }

  /** The full set holds exactly the keys that some non-null element has. */
  lemma {:induction false} AllMembership(elements: seq<InputElement>, k: ParamKey)
    ensures k in AllOf(elements) <==>
              exists i :: 0 <= i < |elements| && elements[i].Some? && k in elements[i].value
  {
    if elements != [] {
      var front := elements[..|elements| - 1];
      AllMembership(front, k);
      assert forall i :: 0 <= i < |front| ==> front[i] == elements[i];
    }
  }

  /** Every common parameter is among all parameters. */
  lemma {:induction false} CommonWithinAll(elements: seq<InputElement>)
    ensures CommonOf(elements).Some? ==> CommonOf(elements).value <= AllOf(elements)
  {
    if CommonOf(elements).Some? {
      forall k | k in CommonOf(elements).value ensures k in AllOf(elements) {
        CommonMembership(elements, k);
        var i :| 0 <= i < |elements| && elements[i].Some?;
        AllMembership(elements, k);
      }
    }
  }

  /** With a single non-null element, both modes give that element's parameters. */
  lemma {:induction false} SingleElementModesAgree(elements: seq<InputElement>, n: nat)
    requires n < |elements| && elements[n].Some?
    requires forall i :: 0 <= i < |elements| && i != n ==> elements[i].None?
    ensures CommonOf(elements) == Some(AllOf(elements)) == Some(KeySet(elements[n].value))
  {
    CommonMembership(elements, ParamKey(0, 0, []));
    var common := CommonOf(elements).value;
    forall k ensures (k in common <==> k in KeySet(elements[n].value))
                  && (k in AllOf(elements) <==> k in KeySet(elements[n].value)) {
      CommonMembership(elements, k);
      AllMembership(elements, k);
    }
    assert common == KeySet(elements[n].value);
    assert AllOf(elements) == KeySet(elements[n].value);
  }

  /** The keys of `ks`, without repetition, in some order (a `HashSet`'s enumeration). */
  method Enumerate(s: set<ParamKey>) returns (order: seq<ParamKey>)
    ensures KeySet(order) == s && Distinct(order)
  {
    order := [];
    var rest := s;
    while rest != {}
      invariant KeySet(order) + rest == s
      invariant KeySet(order) !! rest
      invariant Distinct(order)
      decreases |rest|
    {
      var k :| k in rest;
      order := order + [k];
      rest := rest - {k};
    }
  }

  /** `Menu_PopulateOutputsWithCommonParameters`' loop: intersect the parameter sets of the non-null elements. */
  method CommonParameters(elements: seq<InputElement>) returns (common: Option<set<ParamKey>>)
    ensures common == CommonOf(elements)
    ensures common.Some? <==> exists i :: 0 <= i < |elements| && elements[i].Some?
    ensures common.Some? ==> forall k ::
              k in common.value <==> forall i :: 0 <= i < |elements| && elements[i].Some? ==> k in elements[i].value
  {
    common := None;
    var i := 0;
    while i < |elements|
      invariant 0 <= i <= |elements|
      invariant common == CommonOf(elements[..i])
    {
      assert elements[..i + 1][..i] == elements[..i];
      var element := elements[i];
      if element.Some? {
        var current: set<ParamKey> := {};
        var j := 0;
        while j < |element.value|
          invariant 0 <= j <= |element.value|
          invariant current == KeySet(element.value[..j])
        {
          assert element.value[..j + 1] == element.value[..j] + [element.value[j]];
          current := current + {element.value[j]};
          j := j + 1;
        }
        assert element.value[..j] == element.value;
        if common.None? {
          common := Some(current);
        } else {
          common := Some(common.value * current);
        }
      }
      i := i + 1;
    }
    assert elements[..i] == elements;
    forall k ensures common.Some? ==>
        (k in common.value <==> forall i :: 0 <= i < |elements| && elements[i].Some? ==> k in elements[i].value) {
      CommonMembership(elements, k);
    }
    CommonMembership(elements, ParamKey(0, 0, []));
  }

  /** `Menu_PopulateOutputsWithAllParameters`' loop: collect the parameters of the non-null elements. */
  method AllParameters(elements: seq<InputElement>) returns (all: set<ParamKey>)
    ensures all == AllOf(elements)
    ensures forall k :: k in all <==> exists i :: 0 <= i < |elements| && elements[i].Some? && k in elements[i].value
  {
    all := {};
    var i := 0;
    while i < |elements|
      invariant 0 <= i <= |elements|
      invariant all == AllOf(elements[..i])
    {
      assert elements[..i + 1][..i] == elements[..i];
      var element := elements[i];
      if element.Some? {
        var j := 0;
        while j < |element.value|
          invariant 0 <= j <= |element.value|
          invariant all == AllOf(elements[..i]) + KeySet(element.value[..j])
        {
          assert element.value[..j + 1] == element.value[..j] + [element.value[j]];
          all := all + {element.value[j]};
          j := j + 1;
        }
        assert element.value[..j] == element.value;
      }
      i := i + 1;
    }
    assert elements[..i] == elements;
    forall k ensures k in all <==> exists i :: 0 <= i < |elements| && elements[i].Some? && k in elements[i].value {
      AllMembership(elements, k);
    }
  }

  // ----- Recording and reattaching the wiring.

  /** The `connected` dictionary: each wired port's key with its recipients. */
  function Connected(ports: seq<Port>): map<ParamKey, seq<Recipient>> {
    if ports == [] then map[]
    else
      var c := Connected(ports[..|ports| - 1]);
      var p := ports[|ports| - 1];
      if IsWired(p) then c[p.key := p.recipients] else c
  }

  /** The recipients recorded under `k`, none when `k` was not wired. */
  function RecordedFor(connected: map<ParamKey, seq<Recipient>>, k: ParamKey): seq<Recipient> {
    if k in connected then connected[k] else []
  }

  /** The new outputs: one port per key, carrying the recipients recorded under that key. */
  function Rewire(connected: map<ParamKey, seq<Recipient>>, ks: seq<ParamKey>): (ports: seq<Port>)
    ensures |ports| == |ks|
    ensures forall j :: 0 <= j < |ks| ==> ports[j] == Port(ks[j], RecordedFor(connected, ks[j]))
  {
    if ks == [] then []
    else Rewire(connected, ks[..|ks| - 1]) + [Port(ks[|ks| - 1], RecordedFor(connected, ks[|ks| - 1]))]
  }

  /**
   * Only wired ports are recorded, and, when no key repeats, each under its
   * own key with its own recipients.
   */
  lemma {:induction false} ConnectedRecords(ports: seq<Port>, k: ParamKey)
    requires Distinct(Keys(ports))
    ensures k in Connected(ports) <==> exists i :: 0 <= i < |ports| && ports[i].key == k && IsWired(ports[i])
    ensures forall i :: 0 <= i < |ports| && ports[i].key == k && IsWired(ports[i]) ==>
              k in Connected(ports) && Connected(ports)[k] == ports[i].recipients
  {
    if ports != [] {
      var front := ports[..|ports| - 1];
      assert Keys(front) == Keys(ports)[..|front|];
      ConnectedRecords(front, k);
    }
  }

  /** One event per port, in order, announcing that it was unregistered. */
  function UnregisterLog(ports: seq<Port>): seq<Event> {
    if ports == [] then []
    else UnregisterLog(ports[..|ports| - 1]) + [OutputUnregistered(ports[|ports| - 1].key)]
  }

  /** One event per key, in order, announcing that its port was registered. */
  function RegisterLog(ks: seq<ParamKey>): seq<Event> {
    if ks == [] then [] else RegisterLog(ks[..|ks| - 1]) + [OutputRegistered(ks[|ks| - 1])]
  }

  /**
   * Reattachment keeps wiring: when an old port was wired and a new port has
   * its key, the new port has exactly the old port's recipients.
   */
  lemma {:induction false} ReattachKeepsWiring(before: seq<Port>, ks: seq<ParamKey>, i: nat, j: nat)
    requires Distinct(Keys(before))
    requires i < |before| && IsWired(before[i]) && j < |ks| && ks[j] == before[i].key
    ensures Rewire(Connected(before), ks)[j].recipients == before[i].recipients
  {
    ConnectedRecords(before, ks[j]);
  }

  /**
   * Reattachment invents no wiring: a new port has recipients only when an
   * old wired port had its key, and then it has exactly that port's
   * recipients; recipients of keys that are gone are not reattached.
   */
  lemma {:induction false} ReattachOnlyRecorded(before: seq<Port>, ks: seq<ParamKey>, j: nat)
    requires Distinct(Keys(before))
    requires j < |ks| && IsWired(Rewire(Connected(before), ks)[j])
    ensures exists i :: 0 <= i < |before| && before[i].key == ks[j] && IsWired(before[i])
                        && before[i].recipients == Rewire(Connected(before), ks)[j].recipients
  {
    var k := ks[j];
    ConnectedRecords(before, k);
    assert Rewire(Connected(before), ks)[j] == Port(k, RecordedFor(Connected(before), k));
    assert k in Connected(before);
    var i :| 0 <= i < |before| && before[i].key == k && IsWired(before[i]);
    assert Connected(before)[k] == before[i].recipients;
  }

  lemma {:induction false} DistinctFromMultiset<T>(a: seq<T>, b: seq<T>)
    requires multiset(a) == multiset(b) && Distinct(b)
    ensures Distinct(a)
  {
    forall i, j | 0 <= i < j < |a| ensures a[i] != a[j] {
      if a[i] == a[j] {
        var x := a[i];
        assert a == a[..j] + [x] + a[j + 1..];
        assert a[..j] == a[..i] + [x] + a[i + 1..j];
        assert multiset(a)[x] >= 2;
        CountAtMostOne(b, x);
      }
    }
  }

  lemma {:induction false} CountAtMostOne<T>(b: seq<T>, x: T)
    requires Distinct(b)
    ensures multiset(b)[x] <= 1
  {
    if b != [] {
      assert b == [b[0]] + b[1..];
      CountAtMostOne(b[1..], x);
      if b[0] == x {
        assert x !in b[1..];
      }
    }
  }

  lemma {:induction false} DistinctMultisetKeySet(a: seq<ParamKey>)
    requires Distinct(a)
    ensures multiset(a) == multiset(KeySet(a))
  {
    if a != [] {
      var front := a[..|a| - 1];
      var x := a[|a| - 1];
      assert a == front + [x];
      DistinctMultisetKeySet(front);
      assert KeySet(a) == KeySet(front) + {x};
      assert x !in KeySet(front);
    }
  }

  /**
   * The output layout is determined by the parameter set: two well-formed
   * orderings of the same keys are the same ordering when no two keys share
   * a group and built-in id.
   */
  lemma {:induction false} LayoutIsDeterministic(a: seq<ParamKey>, b: seq<ParamKey>)
    requires Distinct(a) && Distinct(b) && KeySet(a) == KeySet(b)
    requires SortedBy(a, KeyRank) && SortedBy(b, KeyRank)
    requires RankInjective(a, KeyRank)
    ensures a == b
  {
    DistinctMultisetKeySet(a);
    DistinctMultisetKeySet(b);
    SortedUnique(a, b, KeyRank);
  }

  // ----- Pruning.

  /** The ports that have at least one recipient, in their original order. */
  function Wired(ports: seq<Port>): seq<Port> {
    if ports == [] then []
    else
      var p := ports[|ports| - 1];
      Wired(ports[..|ports| - 1]) + (if IsWired(p) then [p] else [])
  }

  /** The ports with no recipient, in their original order. */
  function Unwired(ports: seq<Port>): seq<Port> {
    if ports == [] then []
    else
      var p := ports[|ports| - 1];
      Unwired(ports[..|ports| - 1]) + (if IsWired(p) then [] else [p])
  }

  /** Pruning keeps exactly the wired ports. */
  lemma {:induction false} WiredMembership(ports: seq<Port>, p: Port)
    ensures p in Wired(ports) <==> p in ports && IsWired(p)
  {
    if ports != [] {
      var front := ports[..|ports| - 1];
      WiredMembership(front, p);
      assert ports == front + [ports[|ports| - 1]];
    }
  }

  /** Pruning works port by port and keeps the relative order of what it keeps. */
  lemma {:induction false} WiredConcat(a: seq<Port>, b: seq<Port>)
    ensures Wired(a + b) == Wired(a) + Wired(b)
  {
    if b == [] {
      assert a + b == a;
    } else {
      var front := b[..|b| - 1];
      assert (a + b)[..|a + b| - 1] == a + front;
      assert (a + b)[|a + b| - 1] == b[|b| - 1];
      WiredConcat(a, front);
    }
  }

  /** Pruning twice is pruning once. */
  lemma {:induction false} WiredIdempotent(ports: seq<Port>)
    ensures Wired(Wired(ports)) == Wired(ports)
  {
    if ports != [] {
      var front := ports[..|ports| - 1];
      var p := ports[|ports| - 1];
      WiredIdempotent(front);
      WiredConcat(Wired(front), if IsWired(p) then [p] else []);
      if IsWired(p) {
        assert Wired([p]) == Wired([]) + [p];
      }
    }
  }

  /** The ports pruning keeps are a subsequence: an increasing choice of positions. */
  lemma {:induction false} WiredSubsequence(ports: seq<Port>) returns (pos: seq<nat>)
    ensures |pos| == |Wired(ports)|
    ensures forall m :: 0 <= m < |pos| ==> pos[m] < |ports| && ports[pos[m]] == Wired(ports)[m]
    ensures forall m, n :: 0 <= m < n < |pos| ==> pos[m] < pos[n]
  {
    if ports == [] {
      pos := [];
    } else {
      var front := ports[..|ports| - 1];
      pos := WiredSubsequence(front);
      if IsWired(ports[|ports| - 1]) {
        pos := pos + [|ports| - 1];
      }
    }
  }

  /** Pruning keeps the layout well formed. */
  lemma {:induction false} WiredWellFormed(ports: seq<Port>)
    requires WellFormed(ports)
    ensures WellFormed(Wired(ports))
  {
    var w := Wired(ports);
    var pos := WiredSubsequence(ports);
    forall m, n | 0 <= m < n < |w| ensures w[m].key != w[n].key && RankLe(KeyRank(w[m].key), KeyRank(w[n].key)) {
      assert Keys(ports)[pos[m]] == w[m].key && Keys(ports)[pos[n]] == w[n].key;
    }
  }

  /**
   * The order the new ports are registered in: the parameter set in some
   * enumeration order, grouped by group and sorted by built-in id; it holds
   * every parameter once and is laid out well.
   */
  method Layout(parameters: set<ParamKey>) returns (sorted: seq<ParamKey>)
    ensures Distinct(sorted) && SortedBy(sorted, KeyRank)
    ensures KeySet(sorted) == parameters
  {
    var order := Enumerate(parameters);
    sorted := SortBy(order, KeyRank);
    SortByCorrect(order, KeyRank);
    DistinctFromMultiset(sorted, order);
    forall k ensures k in sorted <==> k in order {
      assert k in sorted <==> k in multiset(sorted);
      assert k in order <==> k in multiset(order);
    }
  }

  /** The component: its output ports and the host-visible calls it has made. */
  class ElementDecompose {
    var outputs: seq<Port>
    var events: seq<Event>

    ghost predicate Valid()
      reads this
    {
      WellFormed(outputs)
    }

    constructor ()
      ensures Valid() && outputs == [] && events == []
    {
      outputs := [];
      events := [];
    }

    /**
     * `PopulateOutputParameters(parameters)`: records each wired output with
     * its recipients, unregisters every output, registers one port per
     * parameter (none for null) by group and built-in id, and reattaches
     * each recorded recipient to the new port with its key.
     */
    method PopulateOutputParameters(parameters: Option<set<ParamKey>>)
      requires Valid()
      modifies this
      ensures Valid()
      ensures KeySet(Keys(outputs)) == (if parameters.Some? then parameters.value else {})
      ensures outputs == Rewire(Connected(old(outputs)), Keys(outputs))
      ensures events == old(events) + UnregisterLog(old(outputs)) + RegisterLog(Keys(outputs))
                        + [ParametersChanged, SolutionExpired]
    {
      var connected := UnregisterAll();
      var sorted: seq<ParamKey> := [];
      if parameters.Some? {
        sorted := Layout(parameters.value);
      }
      RegisterAll(sorted, connected);
      KeysOfRewire(connected, sorted);
      events := events + [ParametersChanged, SolutionExpired];
    }

    /**
     * The first loop of `PopulateOutputParameters`, which is private in the
     * component: record the wired outputs in `connected`, unregistering
     * every output. It leaves no outputs, so it is only called as a phase of
     * that rebuild and does not itself keep `Valid()`.
     */
    method UnregisterAll() returns (connected: map<ParamKey, seq<Recipient>>)
      requires Valid()
      modifies this
      ensures outputs == []
      ensures connected == Connected(old(outputs))
      ensures events == old(events) + UnregisterLog(old(outputs))
    {
      var snapshot := outputs;
      connected := map[];
      var i := 0;
      while i < |snapshot|
        invariant 0 <= i <= |snapshot|
        invariant outputs == snapshot[i..]
        invariant connected == Connected(snapshot[..i])
        invariant events == old(events) + UnregisterLog(snapshot[..i])
      {
        var output := snapshot[i];
        assert snapshot[..i + 1][..i] == snapshot[..i];
        if IsWired(output) {
          RecordedOnce(snapshot, i);
          connected := connected[output.key := output.recipients];  // Dictionary.Add: the key is new
        }
        outputs := outputs[1..];
        events := events + [OutputUnregistered(output.key)];
        i := i + 1;
      }
      assert snapshot[..i] == snapshot;
    }

    /**
     * The second loop of `PopulateOutputParameters`, which is private in the
     * component: register a port per key of `sorted`, in order, and add every
     * recipient recorded under its key. It keeps `Valid()` only for the
     * well-formed layout the rebuild passes it, so it is only called as a
     * phase of that rebuild.
     */
    method RegisterAll(sorted: seq<ParamKey>, connected: map<ParamKey, seq<Recipient>>)
      requires outputs == []
      modifies this
      ensures outputs == Rewire(connected, sorted)
      ensures events == old(events) + RegisterLog(sorted)
    {
      var j := 0;
      while j < |sorted|
        invariant 0 <= j <= |sorted|
        invariant outputs == Rewire(connected, sorted[..j])
        invariant events == old(events) + RegisterLog(sorted[..j])
      {
        var parameter := sorted[j];
        assert sorted[..j + 1][..j] == sorted[..j];
        outputs := outputs + [Port(parameter, [])];  // AddOutputParameter
        events := events + [OutputRegistered(parameter)];
        if parameter in connected {
          AddRecipients(connected[parameter]);
        }
        j := j + 1;
      }
      assert sorted[..j] == sorted;
    }

    /**
     * The innermost loop of `PopulateOutputParameters`:
     * `recipient.AddSource(parameter)` for each recipient, on the port just
     * registered. Only called from `RegisterAll`.
     */
    method AddRecipients(recipients: seq<Recipient>)
      requires outputs != [] && outputs[|outputs| - 1].recipients == []
      modifies this
      ensures outputs == old(outputs)[..|old(outputs)| - 1]
                         + [Port(old(outputs)[|old(outputs)| - 1].key, recipients)]
      ensures events == old(events)
    {
      var key := outputs[|outputs| - 1].key;
      var m := 0;
      while m < |recipients|
        invariant 0 <= m <= |recipients|
        invariant |outputs| == |old(outputs)|
        invariant outputs == old(outputs)[..|old(outputs)| - 1] + [Port(key, recipients[..m])]
        invariant events == old(events)
      {
        var last := outputs[|outputs| - 1];
        assert recipients[..m + 1] == recipients[..m] + [recipients[m]];
        outputs := outputs[..|outputs| - 1] + [Port(key, last.recipients + [recipients[m]])];
        m := m + 1;
      }
      assert recipients[..m] == recipients;
    }

    /** `Menu_PopulateOutputsWithCommonParameters`. */
    method PopulateOutputsWithCommonParameters(elements: seq<InputElement>)
      requires Valid()
      modifies this
      ensures Valid()
      ensures var common := CommonOf(elements);
              && KeySet(Keys(outputs)) == (if common.Some? then common.value else {})
              && outputs == Rewire(Connected(old(outputs)), Keys(outputs))
              && events == old(events) + [UndoRecorded("Get Common Parameters")] + UnregisterLog(old(outputs))
                           + RegisterLog(Keys(outputs)) + [ParametersChanged, SolutionExpired]
    {
      var common := CommonParameters(elements);
      events := events + [UndoRecorded("Get Common Parameters")];
      PopulateOutputParameters(common);
    }

    /** `Menu_PopulateOutputsWithAllParameters`. */
    method PopulateOutputsWithAllParameters(elements: seq<InputElement>)
      requires Valid()
      modifies this
      ensures Valid()
      ensures KeySet(Keys(outputs)) == AllOf(elements)
      ensures outputs == Rewire(Connected(old(outputs)), Keys(outputs))
      ensures events == old(events) + [UndoRecorded("Get All Parameters")] + UnregisterLog(old(outputs))
                        + RegisterLog(Keys(outputs)) + [ParametersChanged, SolutionExpired]
    {
      var all := AllParameters(elements);
      events := events + [UndoRecorded("Get All Parameters")];
      PopulateOutputParameters(Some(all));
    }

    /**
     * `Menu_RemoveUnconnectedParameters`: records the undo point (also when
     * nothing is removed) and unregisters every output without recipients.
     */
    method RemoveUnconnectedParameters()
      requires Valid()
      modifies this
      ensures Valid()
      ensures outputs == Wired(old(outputs))
      ensures events == old(events) + [UndoRecorded("Remove Unconnected Outputs")]
                        + UnregisterLog(Unwired(old(outputs))) + [ParametersChanged, DisplayExpired]
    {
      events := events + [UndoRecorded("Remove Unconnected Outputs")];
      ghost var snapshot := outputs;
      PruneUnwired();
      WiredWellFormed(snapshot);
      events := events + [ParametersChanged, DisplayExpired];
    }

    /**
     * The loop of `Menu_RemoveUnconnectedParameters` (a private menu
     * handler) over a copy of the outputs, unregistering each one without
     * recipients. Only called from `RemoveUnconnectedParameters`, which
     * establishes `Valid()` afterwards.
     */
    method PruneUnwired()
      modifies this
      ensures outputs == Wired(old(outputs))
      ensures events == old(events) + UnregisterLog(Unwired(old(outputs)))
    {
      var snapshot := outputs;
      var i := 0;
      while i < |snapshot|
        invariant 0 <= i <= |snapshot|
        invariant outputs == Wired(snapshot[..i]) + snapshot[i..]
        invariant events == old(events) + UnregisterLog(Unwired(snapshot[..i]))
      {
        var output := snapshot[i];
        PruneStep(snapshot, i);
        if !IsWired(output) {
          var at := |Wired(snapshot[..i])|;
          outputs := outputs[..at] + outputs[at + 1..];  // UnregisterOutputParameter(output)
          ghost var log := UnregisterLog(Unwired(snapshot[..i]));
          assert events == old(events) + log;
          events := events + [OutputUnregistered(output.key)];
          assert events == old(events) + (log + [OutputUnregistered(output.key)]);
        }
        i := i + 1;
      }
      assert snapshot[..i] == snapshot;
    }
  }

  /** The keys of the reattached ports are the keys they were laid out from. */
  lemma {:induction false} KeysOfRewire(connected: map<ParamKey, seq<Recipient>>, ks: seq<ParamKey>)
    ensures Keys(Rewire(connected, ks)) == ks
  {
    var ports := Rewire(connected, ks);
    assert forall j :: 0 <= j < |ks| ==> Keys(ports)[j] == ports[j].key == ks[j];
  }

  /**
   * One step of the pruning loop: a wired port stays where it is; removing
   * an unwired one at the end of the kept prefix gives the next state.
   */
  lemma {:induction false} PruneStep(s: seq<Port>, i: nat)
    requires i < |s|
    ensures var o := Wired(s[..i]) + s[i..];
            var at := |Wired(s[..i])|;
            if IsWired(s[i]) then
              Wired(s[..i + 1]) + s[i + 1..] == o && Unwired(s[..i + 1]) == Unwired(s[..i])
            else
              at < |o| && o[at] == s[i] &&
              o[..at] + o[at + 1..] == Wired(s[..i + 1]) + s[i + 1..] &&
              UnregisterLog(Unwired(s[..i + 1])) == UnregisterLog(Unwired(s[..i])) + [OutputUnregistered(s[i].key)]
  {
    var front := s[..i + 1][..i];
    assert front == s[..i];
    var w := Wired(s[..i]);
    var o := w + s[i..];
    assert s[i..] == [s[i]] + s[i + 1..];
    if IsWired(s[i]) {
      assert Wired(s[..i + 1]) == w + [s[i]];
    } else {
      assert Wired(s[..i + 1]) == w;
      assert o[..|w|] == w;
      assert o[|w| + 1..] == s[i + 1..];
      var u := Unwired(s[..i + 1]);
      assert u == Unwired(s[..i]) + [s[i]];
      assert u[..|u| - 1] == Unwired(s[..i]);
    }
  }

  /** With distinct keys, a wired port's key is not yet in the dictionary built from the ports before it. */
  lemma {:induction false} RecordedOnce(ports: seq<Port>, i: nat)
    requires Distinct(Keys(ports)) && i < |ports|
    ensures ports[i].key !in Connected(ports[..i])
  {
    var front := ports[..i];
    assert Keys(front) == Keys(ports)[..i];
    ConnectedRecords(front, ports[i].key);
  }
}
