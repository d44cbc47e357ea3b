/** The Jack wiring engine of ampi (ampi_app/jack.py): named rule lists are
    compiled into two lookup tables, and every port is reconciled against its
    table entry by disconnecting undesired peers and connecting missing ones.
    The Jack server is abstracted as a map of existing ports and a set of
    (output port, input port) connections. */
module Jack {
  import opened Common

  type PortName = string

  /** The connection kind of a rule: "audio" or "midi". */
  type Kind = string

  /** One wiring rule; an absent (or empty) endpoint means "no fixed peer". */
  datatype Rule = Rule(kind: Kind, source: Option<PortName>, dest: Option<PortName>)

  /** A named configuration. */
  datatype Config = Config(name: string, rules: seq<Rule>)

  /** The configurations shipped with the application, in order. */
  const WIRING: seq<Config> := [
    Config("Mono R", [
      Rule("audio", Some("system:capture_1"), Some("gx_head_amp:in_0")),
      Rule("audio", Some("system:capture_2"), None),
      Rule("audio", Some("gx_head_fx:out_0"), Some("system:playback_2")),
      Rule("audio", Some("gx_head_fx:out_1"), Some("system:playback_2")),
      Rule("audio", None, Some("system:playback_1"))]),
    Config("Stereo", [
      Rule("audio", Some("system:capture_1"), Some("gx_head_amp:in_0")),
      Rule("audio", Some("system:capture_2"), None),
      Rule("audio", Some("gx_head_fx:out_0"), Some("system:playback_1")),
      Rule("audio", Some("gx_head_fx:out_1"), Some("system:playback_2"))])
  ]

  /** `get_wirings`: the configuration names, in order. */
  function GetWirings(): (names: seq<string>)
    ensures |names| == |WIRING|
    ensures forall i :: 0 <= i < |names| ==> names[i] == WIRING[i].name
  {
    seq(|WIRING|, i requires 0 <= i < |WIRING| => WIRING[i].name)
  }

  // ---------------------------------------------------------------------
  // Rule tables

  /** Python truthiness of an endpoint: None and "" are false. */
  predicate Given(e: Option<PortName>) { e.Some? && e.value != "" }

  /** Which table: `source_wiring` (keyed by output port) or `sink_wiring`
      (keyed by input port). */
  datatype Side = SourceSide | SinkSide

  /** The endpoint a table of this side is keyed by, and the other one. */
  function Near(r: Rule, side: Side): Option<PortName> { if side == SourceSide then r.source else r.dest }
  function Far(r: Rule, side: Side): Option<PortName> { if side == SourceSide then r.dest else r.source }

  type Key = (Kind, PortName)
  type Table = map<Key, set<PortName>>

  /** The effect of one rule on one table. */
  function AddRule(t: Table, r: Rule, side: Side): Table
  {
    if !Given(Near(r, side)) then t
    else
      var key := (r.kind, Near(r, side).value);
      if Given(Far(r, side)) then t[key := (if key in t then t[key] else {}) + {Far(r, side).value}]
      else t[key := {}]
  }

  /** The table of one side after all rules, in order. */
  function Compile(rules: seq<Rule>, side: Side): Table
    decreases |rules|
  {
    if rules == [] then map[]
    else AddRule(Compile(rules[..|rules| - 1], side), rules[|rules| - 1], side)
  }

  predicate Names(r: Rule, side: Side, key: Key)
  {
    r.kind == key.0 && Given(Near(r, side)) && Near(r, side).value == key.1
  }

  /** A rule with both endpoints that adds `peer` to the entry `key`. */
  predicate Adds(r: Rule, side: Side, key: Key, peer: PortName)
  {
    Names(r, side, key) && Given(Far(r, side)) && Far(r, side).value == peer
  }

  /** A rule without a far endpoint: it resets the entry `key` to empty. */
  predicate Resets(r: Rule, side: Side, key: Key)
  {
    Names(r, side, key) && !Given(Far(r, side))
  }

  /** A table has an entry for exactly the ports some rule names on that side. */
  lemma {:induction false} CompileKeys(rules: seq<Rule>, side: Side, key: Key)
    ensures key in Compile(rules, side) <==> exists i :: 0 <= i < |rules| && Names(rules[i], side, key)
    decreases |rules|
  {
    if rules != [] {
      var init := rules[..|rules| - 1];
      CompileKeys(init, side, key);
      if key in Compile(init, side) {
        var i :| 0 <= i < |init| && Names(init[i], side, key);
        assert rules[i] == init[i];
      }
      if exists i :: 0 <= i < |rules| && Names(rules[i], side, key) {
        var i :| 0 <= i < |rules| && Names(rules[i], side, key);
        if i < |init| { assert init[i] == rules[i]; }
      }
    }
  }

  /** Some rule adds `peer` to the entry `key` and no later rule resets it. */
  ghost predicate AddedLive(rules: seq<Rule>, side: Side, key: Key, peer: PortName)
  {
    exists i :: 0 <= i < |rules| && Adds(rules[i], side, key, peer) &&
      forall j :: i < j < |rules| ==> !Resets(rules[j], side, key)
  }

  /** How one more rule changes `AddedLive`. */
  lemma AddedLiveStep(rules: seq<Rule>, side: Side, key: Key, peer: PortName)
    requires |rules| > 0
    ensures var init, r := rules[..|rules| - 1], rules[|rules| - 1];
      if Resets(r, side, key) then !AddedLive(rules, side, key, peer)
      else if Adds(r, side, key, peer) then AddedLive(rules, side, key, peer)
      else AddedLive(rules, side, key, peer) == AddedLive(init, side, key, peer)
  {
    var n := |rules|;
    var init, r := rules[..n - 1], rules[n - 1];
    if Resets(r, side, key) {
    } else if Adds(r, side, key, peer) {
      assert Adds(rules[n - 1], side, key, peer);
    } else {
      if AddedLive(rules, side, key, peer) {
        var i :| 0 <= i < n && Adds(rules[i], side, key, peer) &&
          forall j :: i < j < n ==> !Resets(rules[j], side, key);
        assert i < n - 1 && init[i] == rules[i];
        assert forall j :: i < j < n - 1 ==> init[j] == rules[j];
      }
      if AddedLive(init, side, key, peer) {
        var i :| 0 <= i < n - 1 && Adds(init[i], side, key, peer) &&
          forall j :: i < j < n - 1 ==> !Resets(init[j], side, key);
        assert rules[i] == init[i];
        assert forall j :: i < j < n - 1 ==> init[j] == rules[j];
      }
    }
  }

  /** A port no rule names has nothing added to it. */
  lemma NotNamedNotAdded(rules: seq<Rule>, side: Side, key: Key, peer: PortName)
    requires key !in Compile(rules, side)
    ensures !AddedLive(rules, side, key, peer)
  {
    CompileKeys(rules, side, key);
  }

  /** The entry of `key` holds `peer` iff some rule adds it and no later rule
      resets that entry: a rule with no far endpoint overwrites what came
      before it. */
  lemma {:induction false} CompileEntries(rules: seq<Rule>, side: Side, key: Key, peer: PortName)
    requires key in Compile(rules, side)
    ensures peer in Compile(rules, side)[key] <==> AddedLive(rules, side, key, peer)
    decreases |rules|
  {
    var n := |rules|;
    var init, r := rules[..n - 1], rules[n - 1];
    var t := Compile(init, side);
    AddedLiveStep(rules, side, key, peer);
    if !Names(r, side, key) {
      CompileEntries(init, side, key, peer);
    } else if !Resets(r, side, key) && !Adds(r, side, key, peer) {
      if key in t {
        CompileEntries(init, side, key, peer);
      } else {
        NotNamedNotAdded(init, side, key, peer);
      }
    }
  }

  /** A rule with both endpoints puts the far endpoint into the entry of the
      near one (until a later reset of that entry). */
  lemma RuleWithBothEndpoints(t: Table, r: Rule, side: Side)
    requires Given(r.source) && Given(r.dest)
    ensures var key := (r.kind, Near(r, side).value);
      key in AddRule(t, r, side) && Far(r, side).value in AddRule(t, r, side)[key]
    ensures forall k :: k in t && k != (r.kind, Near(r, side).value) ==>
      k in AddRule(t, r, side) && AddRule(t, r, side)[k] == t[k]
  {
  }

  // ---------------------------------------------------------------------
  // The table as the source builds it (see README, Findings)

  /** An entry as the source stores it: a set, or the empty dict `{}` that a
      rule without a far endpoint writes. */
  datatype Entry = PeerSet(peers: set<PortName>) | EmptyDict

  type EntryTable = map<Key, Entry>

  /** One rule as written: adding to an entry that holds `{}` calls `add` on a
      dict and raises AttributeError (None here). */
  function AddRuleAsWritten(t: EntryTable, r: Rule, side: Side): Option<EntryTable>
  {
    if !Given(Near(r, side)) then Some(t)
    else
      var key := (r.kind, Near(r, side).value);
      if Given(Far(r, side)) then
        if key in t && t[key].EmptyDict? then None
        else Some(t[key := PeerSet((if key in t then t[key].peers else {}) + {Far(r, side).value})])
      else Some(t[key := EmptyDict])
  }

  function CompileAsWritten(rules: seq<Rule>, side: Side): Option<EntryTable>
    decreases |rules|
  {
    if rules == [] then Some(map[])
    else
      var t := CompileAsWritten(rules[..|rules| - 1], side);
      if t.None? then None else AddRuleAsWritten(t.value, rules[|rules| - 1], side)
  }

  /** Reads an as-written table the way membership tests and iteration do:
      the empty dict behaves as the empty set. */
  function Flatten(t: EntryTable): (r: Table)
    ensures r.Keys == t.Keys
  {
    map k | k in t :: if t[k].EmptyDict? then {} else t[k].peers
  }

  /** Whenever the as-written loop finishes, it yields the corrected table. */
  lemma {:induction false} AsWrittenAgrees(rules: seq<Rule>, side: Side)
    requires CompileAsWritten(rules, side).Some?
    ensures Flatten(CompileAsWritten(rules, side).value) == Compile(rules, side)
    decreases |rules|
  {
    if rules != [] {
      AsWrittenAgrees(rules[..|rules| - 1], side);
    }
  }

  /** The entries some rule resets to `{}`. */
  function ResetKeys(rules: seq<Rule>, side: Side): set<Key>
    decreases |rules|
  {
    if rules == [] then {}
    else
      var last := rules[|rules| - 1];
      ResetKeys(rules[..|rules| - 1], side) +
        (if Given(Near(last, side)) && !Given(Far(last, side)) then {(last.kind, Near(last, side).value)} else {})
  }

  /** No rule adds a peer to an entry that an earlier rule reset. */
  predicate NoAddAfterReset(rules: seq<Rule>, side: Side)
    decreases |rules|
  {
    rules == [] ||
    (var last := rules[|rules| - 1];
     NoAddAfterReset(rules[..|rules| - 1], side) &&
     (Given(Near(last, side)) && Given(Far(last, side)) ==> (last.kind, Near(last, side).value) !in ResetKeys(rules[..|rules| - 1], side)))
  }

  /** The loop as written finishes when no reset is followed by an add to
      the same entry; the entries holding `{}` are then the reset ones. */
  lemma {:induction false} AsWrittenSucceeds(rules: seq<Rule>, side: Side)
    requires NoAddAfterReset(rules, side)
    ensures CompileAsWritten(rules, side).Some?
    ensures forall key :: key in CompileAsWritten(rules, side).value && CompileAsWritten(rules, side).value[key].EmptyDict? ==>
      key in ResetKeys(rules, side)
    decreases |rules|
  {
    if rules != [] {
      AsWrittenSucceeds(rules[..|rules| - 1], side);
    }
  }

  /** One more rule, in terms of the prefix before it. */
  lemma PrefixStep(rules: seq<Rule>, j: nat, side: Side)
    requires j < |rules|
    ensures var last := rules[j];
      NoAddAfterReset(rules[..j + 1], side) <==> (NoAddAfterReset(rules[..j], side) &&
        (Given(Near(last, side)) && Given(Far(last, side)) ==> (last.kind, Near(last, side).value) !in ResetKeys(rules[..j], side)))
    ensures var last := rules[j];
      ResetKeys(rules[..j + 1], side) == ResetKeys(rules[..j], side) +
        (if Given(Near(last, side)) && !Given(Far(last, side)) then {(last.kind, Near(last, side).value)} else {})
  {
    assert rules[..j + 1][..j] == rules[..j];
  }

  /** In the shipped configurations no reset is followed by an add to the
      same entry. On the source side only "system:capture_2" is reset; on
      the sink side only "system:playback_1" is, by the last rule of
      "Mono R". No later rule adds to either. */
  lemma ShippedNoAddAfterReset(k: nat, side: Side)
    requires k < |WIRING|
    ensures NoAddAfterReset(WIRING[k].rules, side)
  {
    if k == 0 {
      FirstRulesKeep(WIRING[0].rules, side);
      PrefixStep(WIRING[0].rules, 4, side);
      assert WIRING[0].rules[..5] == WIRING[0].rules;
    } else {
      FirstRulesKeep(WIRING[1].rules, side);
      assert WIRING[1].rules[..4] == WIRING[1].rules;
    }
  }

  /** The four rules both shipped configurations start with. */
  lemma FirstRulesKeep(rules: seq<Rule>, side: Side)
    requires |rules| >= 4
    requires rules[0] == Rule("audio", Some("system:capture_1"), Some("gx_head_amp:in_0"))
    requires rules[1] == Rule("audio", Some("system:capture_2"), None)
    requires forall j :: 2 <= j < 4 ==>
      Given(rules[j].source) && Given(rules[j].dest) && rules[j].source.value != "system:capture_2"
    ensures NoAddAfterReset(rules[..4], side)
    ensures ResetKeys(rules[..4], side) == if side == SourceSide then {("audio", "system:capture_2")} else {}
  {
    assert rules[..0] == [];
    PrefixStep(rules, 0, side);
    PrefixStep(rules, 1, side);
    PrefixStep(rules, 2, side);
    PrefixStep(rules, 3, side);
  }

  /** Both shipped configurations compile as written, to the corrected
      tables, on both sides: the defect is never reached by them. */
  lemma ShippedConfigsCompile(k: nat, side: Side)
    requires k < |WIRING|
    ensures CompileAsWritten(WIRING[k].rules, side).Some?
    ensures Flatten(CompileAsWritten(WIRING[k].rules, side).value) == Compile(WIRING[k].rules, side)
  {
    ShippedNoAddAfterReset(k, side);
    AsWrittenSucceeds(WIRING[k].rules, side);
    AsWrittenAgrees(WIRING[k].rules, side);
  }

  /** The defect: a reset followed by a rule for the same port fails as
      written, while the corrected table simply holds the later peer. */
  lemma ResetThenAddFails()
    ensures var rules := [Rule("audio", Some("A"), None), Rule("audio", Some("A"), Some("B"))];
      CompileAsWritten(rules, SourceSide).None? &&
      Compile(rules, SourceSide) == map[("audio", "A") := {"B"}]
  {
    var rules := [Rule("audio", Some("A"), None), Rule("audio", Some("A"), Some("B"))];
    var key := ("audio", "A");
    assert rules[..1] == [rules[0]];
    assert rules[..1][..0] == [];
    assert Compile(rules[..1], SourceSide) == map[key := {}];
    assert CompileAsWritten(rules[..1], SourceSide) == Some(map[key := EmptyDict]);
    assert Compile(rules, SourceSide) == AddRule(map[key := {}], rules[1], SourceSide);
    assert Near(rules[1], SourceSide) == Some("A") && Far(rules[1], SourceSide) == Some("B");
    var none: set<PortName> := {};
    assert none + {"B"} == {"B"};
    assert AddRule(map[key := {}], rules[1], SourceSide) == map[key := {"B"}];
  }

  // ---------------------------------------------------------------------
  // Ports, connections and reconciliation

  datatype PortType = Audio | Midi | OtherType

  datatype Port = Port(name: PortName, ptype: PortType, isOutput: bool, isInput: bool)

  /** A connection, (output port, input port). */
  type Edge = (PortName, PortName)

  datatype Op = ConnectOp(edge: Edge) | DisconnectOp(edge: Edge)

  /** `p_type` of a port: unknown port types have no rules. */
  function KindOf(t: PortType): Option<Kind>
  {
    match t
    case Audio => Some("audio")
    case Midi => Some("midi")
    case OtherType => None
  }

  /** The table entry for a port, if a rule governs it. */
  function RuleFor(t: Table, port: Port): (r: Option<set<PortName>>)
    ensures r.Some? <==> KindOf(port.ptype).Some? && (KindOf(port.ptype).value, port.name) in t
  {
    match KindOf(port.ptype)
    case None => None
    case Some(k) => if (k, port.name) in t then Some(t[(k, port.name)]) else None
  }

  function EdgeOf(side: Side, p: PortName, q: PortName): Edge
  {
    if side == SourceSide then (p, q) else (q, p)
  }

  function NearEnd(e: Edge, side: Side): PortName { if side == SourceSide then e.0 else e.1 }
  function FarEnd(e: Edge, side: Side): PortName { if side == SourceSide then e.1 else e.0 }

  /** `get_all_connections(port)`: the names of the ports `p` is connected to. */
  function Peers(edges: set<Edge>, side: Side, p: PortName): set<PortName>
  {
    set e | e in edges && NearEnd(e, side) == p :: FarEnd(e, side)
  }

  /** The ports one reconciliation of `p` disconnects from it: the current
      peers that are not wanted. */
  function Drops(edges: set<Edge>, side: Side, p: PortName, wanted: set<PortName>): set<PortName>
  {
    Peers(edges, side, p) - wanted
  }

  /** The ports it connects to `p`: wanted, not connected yet, and existing
      (a name that does not resolve is skipped). */
  function Joins(edges: set<Edge>, existing: set<PortName>, side: Side, p: PortName, wanted: set<PortName>): set<PortName>
  {
    (wanted - Peers(edges, side, p)) * existing
  }

  function EdgesTo(side: Side, p: PortName, names: set<PortName>): set<Edge>
  {
    set q | q in names :: EdgeOf(side, p, q)
  }

  /** The operations one reconciliation of `p` issues. */
  function Diff(edges: set<Edge>, existing: set<PortName>, side: Side, p: PortName, wanted: set<PortName>): set<Op>
  {
    Disconnects(side, p, Drops(edges, side, p, wanted)) + Connects(side, p, Joins(edges, existing, side, p, wanted))
  }

  function Disconnects(side: Side, p: PortName, names: set<PortName>): set<Op>
  {
    set c | c in names :: DisconnectOp(EdgeOf(side, p, c))
  }

  function Connects(side: Side, p: PortName, names: set<PortName>): set<Op>
  {
    set c | c in names :: ConnectOp(EdgeOf(side, p, c))
  }

  /** What one reconciliation of `p` issues: only operations at `p`; a
      disconnect exactly for each connected peer that is not wanted, a
      connect exactly for each wanted, existing peer not yet connected. */
  lemma DiffOps(edges: set<Edge>, existing: set<PortName>, side: Side, p: PortName, wanted: set<PortName>)
    ensures forall o :: o in Diff(edges, existing, side, p, wanted) ==> NearEnd(o.edge, side) == p
    ensures forall q :: DisconnectOp(EdgeOf(side, p, q)) in Diff(edges, existing, side, p, wanted) <==>
      EdgeOf(side, p, q) in edges && q !in wanted
    ensures forall q :: ConnectOp(EdgeOf(side, p, q)) in Diff(edges, existing, side, p, wanted) <==>
      EdgeOf(side, p, q) !in edges && q in wanted && q in existing
  {
  }

  lemma GrowByOne(side: Side, p: PortName, names: set<PortName>, c: PortName)
    ensures EdgesTo(side, p, names + {c}) == EdgesTo(side, p, names) + {EdgeOf(side, p, c)}
    ensures Disconnects(side, p, names + {c}) == Disconnects(side, p, names) + {DisconnectOp(EdgeOf(side, p, c))}
    ensures Connects(side, p, names + {c}) == Connects(side, p, names) + {ConnectOp(EdgeOf(side, p, c))}
  {
  }

  /** The connections after a set of operations: disconnects, then connects. */
  function Apply(edges: set<Edge>, ops: set<Op>): set<Edge>
  {
    (edges - (set o | o in ops && o.DisconnectOp? :: o.edge)) + (set o | o in ops && o.ConnectOp? :: o.edge)
  }

  /** The connections a reconciliation of `p` aims at: `p` keeps the wanted
      peers it had, gains the wanted peers that exist, and nothing else of
      the graph changes. */
  function Reconciled(edges: set<Edge>, existing: set<PortName>, side: Side, p: PortName, wanted: set<PortName>): set<Edge>
  {
    (set e | e in edges && (NearEnd(e, side) != p || FarEnd(e, side) in wanted))
    + (set d | d in wanted && d in existing :: EdgeOf(side, p, d))
  }

  lemma ApplyDiffEdges(edges: set<Edge>, existing: set<PortName>, side: Side, p: PortName, wanted: set<PortName>)
    ensures Apply(edges, Diff(edges, existing, side, p, wanted))
      == (edges - EdgesTo(side, p, Drops(edges, side, p, wanted))) + EdgesTo(side, p, Joins(edges, existing, side, p, wanted))
  {
    var ops := Diff(edges, existing, side, p, wanted);
    var drops := Drops(edges, side, p, wanted);
    var joins := Joins(edges, existing, side, p, wanted);
    assert (set o | o in ops && o.DisconnectOp? :: o.edge) == EdgesTo(side, p, drops) by {
      forall q | q in drops ensures EdgeOf(side, p, q) in (set o | o in ops && o.DisconnectOp? :: o.edge) {
        assert DisconnectOp(EdgeOf(side, p, q)) in ops;
      }
    }
    assert (set o | o in ops && o.ConnectOp? :: o.edge) == EdgesTo(side, p, joins) by {
      forall q | q in joins ensures EdgeOf(side, p, q) in (set o | o in ops && o.ConnectOp? :: o.edge) {
        assert ConnectOp(EdgeOf(side, p, q)) in ops;
      }
    }
  }

  /** Dropping the unwanted connections and adding the missing ones gives
      the reconciled graph. */
  lemma DiffReconciles(edges: set<Edge>, existing: set<PortName>, side: Side, p: PortName, wanted: set<PortName>)
    ensures (edges - EdgesTo(side, p, Drops(edges, side, p, wanted))) + EdgesTo(side, p, Joins(edges, existing, side, p, wanted))
      == Reconciled(edges, existing, side, p, wanted)
  {
    var drops := Drops(edges, side, p, wanted);
    var joins := Joins(edges, existing, side, p, wanted);
    var lhs := (edges - EdgesTo(side, p, drops)) + EdgesTo(side, p, joins);
    var rhs := Reconciled(edges, existing, side, p, wanted);
    forall e | e in lhs ensures e in rhs {
      assert e in edges && NearEnd(e, side) == p && FarEnd(e, side) !in wanted ==>
        FarEnd(e, side) in drops && EdgeOf(side, p, FarEnd(e, side)) == e;
    }
    forall e | e in rhs ensures e in lhs {
      if e !in edges || (NearEnd(e, side) == p && FarEnd(e, side) !in wanted) {
        var d :| d in wanted && d in existing && EdgeOf(side, p, d) == e;
        assert forall e' :: e' in edges && NearEnd(e', side) == p && FarEnd(e', side) == d ==> e' == e;
        assert d in joins;
      }
    }
  }

  /** Applying the diff yields the reconciled graph. */
  lemma ApplyDiff(edges: set<Edge>, existing: set<PortName>, side: Side, p: PortName, wanted: set<PortName>)
    ensures Apply(edges, Diff(edges, existing, side, p, wanted)) == Reconciled(edges, existing, side, p, wanted)
  {
    ApplyDiffEdges(edges, existing, side, p, wanted);
    DiffReconciles(edges, existing, side, p, wanted);
  }

  /** The peers of `p` after reconciliation: the wanted ones it had, and the
      wanted ones that exist. */
  lemma ReconciledPeers(edges: set<Edge>, existing: set<PortName>, side: Side, p: PortName, wanted: set<PortName>)
    ensures Peers(Reconciled(edges, existing, side, p, wanted), side, p)
      == (Peers(edges, side, p) * wanted) + (wanted * existing)
  {
    var after := Reconciled(edges, existing, side, p, wanted);
    forall q | q in Peers(after, side, p) ensures q in (Peers(edges, side, p) * wanted) + (wanted * existing) {
      var e :| e in after && NearEnd(e, side) == p && FarEnd(e, side) == q;
      if e in edges && (NearEnd(e, side) != p || FarEnd(e, side) in wanted) {
        assert q in Peers(edges, side, p);
      }
    }
    forall q | q in (Peers(edges, side, p) * wanted) + (wanted * existing) ensures q in Peers(after, side, p) {
      if q in wanted * existing {
        assert EdgeOf(side, p, q) in after;
        assert NearEnd(EdgeOf(side, p, q), side) == p;
      } else {
        var e :| e in edges && NearEnd(e, side) == p && FarEnd(e, side) == q;
        assert e in after;
      }
    }
  }

  /** Idempotence: a second reconciliation with no external change issues
      no operation at all. */
  lemma ReconcileIdempotent(edges: set<Edge>, existing: set<PortName>, side: Side, p: PortName, wanted: set<PortName>)
    ensures Diff(Reconciled(edges, existing, side, p, wanted), existing, side, p, wanted) == {}
  {
    ReconciledPeers(edges, existing, side, p, wanted);
    var after := Reconciled(edges, existing, side, p, wanted);
    assert Drops(after, side, p, wanted) == {};
    assert Joins(after, existing, side, p, wanted) == {};
  }

  /** A port whose entry is empty keeps no connections once reconciled. */
  lemma EmptyEntryDisconnectsAll(edges: set<Edge>, existing: set<PortName>, side: Side, p: PortName)
    ensures Peers(Reconciled(edges, existing, side, p, {}), side, p) == {}
  {
    ReconciledPeers(edges, existing, side, p, {});
  }

  /** Nothing but the connections of `p` itself changes. */
  lemma ReconcileIsLocal(edges: set<Edge>, existing: set<PortName>, side: Side, p: PortName, wanted: set<PortName>, e: Edge)
    requires NearEnd(e, side) != p
    ensures e in Reconciled(edges, existing, side, p, wanted) <==> e in edges
  {
    assert forall d :: NearEnd(EdgeOf(side, p, d), side) == p;
  }

  /** The worked example: rule A -> {B, C}, connections A-B and A-D, C exists:
      exactly one disconnect (A-D) and one connect (A-C). */
  lemma ReconcileExample()
    ensures Diff({("A", "B"), ("A", "D")}, {"A", "B", "C", "D"}, SourceSide, "A", {"B", "C"})
      == {DisconnectOp(("A", "D")), ConnectOp(("A", "C"))}
  {
    var edges: set<Edge> := {("A", "B"), ("A", "D")};
    var peers := Peers(edges, SourceSide, "A");
    assert peers == {"B", "D"} by {
      assert NearEnd(("A", "B"), SourceSide) == "A" && FarEnd(("A", "B"), SourceSide) == "B";
      assert NearEnd(("A", "D"), SourceSide) == "A" && FarEnd(("A", "D"), SourceSide) == "D";
    }
    assert Drops(edges, SourceSide, "A", {"B", "C"}) == {"D"};
    assert Joins(edges, {"A", "B", "C", "D"}, SourceSide, "A", {"B", "C"}) == {"C"};
    assert EdgeOf(SourceSide, "A", "D") == ("A", "D") && EdgeOf(SourceSide, "A", "C") == ("A", "C");
  }

  // ---------------------------------------------------------------------
  // A whole pass over one side (`apply_wiring`)

  function Facing(port: Port, side: Side): bool
  {
    if side == SourceSide then port.isOutput else port.isInput
  }

  /** Port `n` is reconciled in a pass over `side`. */
  predicate Governs(ports: map<PortName, Port>, t: Table, side: Side, n: PortName)
  {
    n in ports && Facing(ports[n], side) && RuleFor(t, ports[n]).Some?
  }

  function WantedOf(ports: map<PortName, Port>, t: Table, side: Side, n: PortName): set<PortName>
    requires Governs(ports, t, side, n)
  {
    RuleFor(t, ports[n]).value
  }

  predicate Keeps(ports: map<PortName, Port>, t: Table, side: Side, done: set<PortName>, e: Edge)
  {
    var n := NearEnd(e, side);
    !(n in done && Governs(ports, t, side, n)) || FarEnd(e, side) in WantedOf(ports, t, side, n)
  }

  /** The connections after reconciling every port of `done` on `side`,
      in any order: the ports' reconciliations touch disjoint connections. */
  function Phase(edges: set<Edge>, ports: map<PortName, Port>, t: Table, side: Side, done: set<PortName>): set<Edge>
  {
    (set e | e in edges && Keeps(ports, t, side, done, e))
    + (set n, d | n in done && d in ports && Governs(ports, t, side, n) && d in WantedOf(ports, t, side, n)
         :: EdgeOf(side, n, d))
  }

  lemma PhaseEmpty(edges: set<Edge>, ports: map<PortName, Port>, t: Table, side: Side)
    ensures Phase(edges, ports, t, side, {}) == edges
  {
  }

  /** Reconciling one more governed port extends the pass by that port. */
  lemma PhaseStep(edges: set<Edge>, ports: map<PortName, Port>, t: Table, side: Side, done: set<PortName>, n: PortName)
    requires n !in done && Governs(ports, t, side, n)
    ensures Reconciled(Phase(edges, ports, t, side, done), ports.Keys, side, n, WantedOf(ports, t, side, n))
      == Phase(edges, ports, t, side, done + {n})
  {
    var wanted := WantedOf(ports, t, side, n);
    var before := Phase(edges, ports, t, side, done);
    var lhs := Reconciled(before, ports.Keys, side, n, wanted);
    var rhs := Phase(edges, ports, t, side, done + {n});
    forall e | e in lhs ensures e in rhs {
      if e in before && (NearEnd(e, side) != n || FarEnd(e, side) in wanted) {
        if e in edges && Keeps(ports, t, side, done, e) {
          assert Keeps(ports, t, side, done + {n}, e);
        } else {
          var m, d :| m in done && d in ports && Governs(ports, t, side, m) && d in WantedOf(ports, t, side, m)
            && EdgeOf(side, m, d) == e;
          assert m in done + {n};
        }
      } else {
        var d :| d in wanted && d in ports.Keys && EdgeOf(side, n, d) == e;
        assert n in done + {n};
      }
    }
    forall e | e in rhs ensures e in lhs {
      if e in edges && Keeps(ports, t, side, done + {n}, e) {
        assert Keeps(ports, t, side, done, e);
      } else {
        var m, d :| m in done + {n} && d in ports && Governs(ports, t, side, m) && d in WantedOf(ports, t, side, m)
          && EdgeOf(side, m, d) == e;
        if m == n {
          assert e in (set d | d in wanted && d in ports.Keys :: EdgeOf(side, n, d));
        } else {
          assert e in before;
        }
      }
    }
  }

  /** A port that is not governed leaves the pass unchanged. */
  lemma PhaseSkip(edges: set<Edge>, ports: map<PortName, Port>, t: Table, side: Side, done: set<PortName>, n: PortName)
    requires !Governs(ports, t, side, n)
    ensures Phase(edges, ports, t, side, done + {n}) == Phase(edges, ports, t, side, done)
  {
    var a := Phase(edges, ports, t, side, done + {n});
    var b := Phase(edges, ports, t, side, done);
    forall e | e in edges ensures Keeps(ports, t, side, done + {n}, e) == Keeps(ports, t, side, done, e) {
    }
    assert a == b;
  }

  /** After a whole pass, re-reconciling any governed port of that side
      issues no operation. */
  lemma PhaseSettles(edges: set<Edge>, ports: map<PortName, Port>, t: Table, side: Side, done: set<PortName>, n: PortName)
    requires n in done && Governs(ports, t, side, n)
    ensures Diff(Phase(edges, ports, t, side, done), ports.Keys, side, n, WantedOf(ports, t, side, n)) == {}
  {
    var wanted := WantedOf(ports, t, side, n);
    var rest := done - {n};
    assert rest + {n} == done;
    PhaseStep(edges, ports, t, side, rest, n);
    ReconcileIdempotent(Phase(edges, ports, t, side, rest), ports.Keys, side, n, wanted);
  }

  // ---------------------------------------------------------------------
  // The server and the client

  /** The Jack server as far as the client sees it. */
  class Server {
    var ports: map<PortName, Port>
    var edges: set<Edge>
    /** Every connect and disconnect the client issued, in order. */
    var log: seq<Op>

    ghost predicate Valid()
      reads this
    {
      forall n :: n in ports ==> ports[n].name == n
    }

    constructor (ports: map<PortName, Port>, edges: set<Edge>)
      ensures this.ports == ports && this.edges == edges && log == []
    {
      this.ports := ports;
      this.edges := edges;
      log := [];
    }

    method ConnectPorts(e: Edge)
      modifies this
      ensures ports == old(ports) && edges == old(edges) + {e} && log == old(log) + [ConnectOp(e)]
    {
      edges := edges + {e};
      log := log + [ConnectOp(e)];
    }

    method DisconnectPorts(e: Edge)
      modifies this
      ensures ports == old(ports) && edges == old(edges) - {e} && log == old(log) + [DisconnectOp(e)]
    {
      edges := edges - {e};
      log := log + [DisconnectOp(e)];
    }
  }

  function Elems<T>(s: seq<T>): set<T> { set x | x in s }

  lemma ElemsAppend<T>(a: seq<T>, b: seq<T>)
    ensures Elems(a + b) == Elems(a) + Elems(b)
  {
    assert forall x :: x in a + b <==> x in a || x in b;
  }

  datatype Status = Disconnected | Connected

  class JackClient {
    /** `self.jack`: null until connected. */
    var server: Server?
    /** The name of the selected configuration. */
    var wiring: string
    var sourceWiring: Table
    var sinkWiring: Table
    const hasStatusCallback: bool
    /** The status callback's calls, in order. */
    var statuses: seq<Status>

    ghost predicate Valid()
      reads this, server
    {
      server != null ==> server.Valid()
    }

    function TableOf(side: Side): Table
      reads this
    {
      if side == SourceSide then sourceWiring else sinkWiring
    }

    constructor (hasStatusCallback: bool)
      ensures Valid() && server == null
      ensures statuses == (if hasStatusCallback then [Disconnected] else [])
      ensures wiring == WIRING[0].name
      ensures sourceWiring == Compile(WIRING[0].rules, SourceSide)
      ensures sinkWiring == Compile(WIRING[0].rules, SinkSide)
    {
      this.hasStatusCallback := hasStatusCallback;
      statuses := if hasStatusCallback then [Disconnected] else [];
      server := null;
      wiring := "";
      sourceWiring := map[];
      sinkWiring := map[];
      new;
      LoadConfig(WIRING[0]);
    }

    /** `_load_wiring`: compile the rules into both tables, then re-apply
        them when connected. */
    method LoadConfig(config: Config)
      requires Valid()
      modifies this, server
      ensures Valid() && server == old(server) && statuses == old(statuses)
      ensures wiring == config.name
      ensures sourceWiring == Compile(config.rules, SourceSide)
      ensures sinkWiring == Compile(config.rules, SinkSide)
      ensures server != null ==> (server.ports == old(server.ports) &&
        server.edges == AllPhases(old(server.edges), server.ports, sourceWiring, sinkWiring))
    {
      var src: Table := map[];
      var snk: Table := map[];
      var i := 0;
      while i < |config.rules|
        invariant 0 <= i <= |config.rules|
        invariant src == Compile(config.rules[..i], SourceSide)
        invariant snk == Compile(config.rules[..i], SinkSide)
      {
        var r := config.rules[i];
        if Given(r.source) {
          var key := (r.kind, r.source.value);
          if Given(r.dest) {
            src := src[key := (if key in src then src[key] else {}) + {r.dest.value}];
          } else {
            src := src[key := {}];
          }
        }
        if Given(r.dest) {
          var key := (r.kind, r.dest.value);
          if Given(r.source) {
            snk := snk[key := (if key in snk then snk[key] else {}) + {r.source.value}];
          } else {
            snk := snk[key := {}];
          }
        }
        assert config.rules[..i + 1][..i] == config.rules[..i];
        i := i + 1;
      }
      assert config.rules[..i] == config.rules;
      wiring := config.name;
      sourceWiring := src;
      sinkWiring := snk;
      if server != null {
        ApplyWiring();
      }
    }

    /** `load_wiring`: select a shipped configuration by exact name; an
        unknown name (KeyError) changes nothing. */
    method LoadWiring(name: string) returns (found: bool)
      requires Valid()
      modifies this, server
      ensures Valid() && server == old(server) && statuses == old(statuses)
      ensures found <==> exists k :: 0 <= k < |WIRING| && WIRING[k].name == name
      ensures !found ==> wiring == old(wiring) && sourceWiring == old(sourceWiring) && sinkWiring == old(sinkWiring)
      ensures !found && server != null ==> (server.ports == old(server.ports) &&
        server.edges == old(server.edges) && server.log == old(server.log))
      ensures found ==> (wiring == name &&
        exists k :: 0 <= k < |WIRING| && WIRING[k].name == name &&
          sourceWiring == Compile(WIRING[k].rules, SourceSide) && sinkWiring == Compile(WIRING[k].rules, SinkSide))
      ensures found && server != null ==> (server.ports == old(server.ports) &&
        server.edges == AllPhases(old(server.edges), server.ports, sourceWiring, sinkWiring))
    {
      var i := 0;
      while i < |WIRING|
        invariant 0 <= i <= |WIRING|
        invariant forall k :: 0 <= k < i ==> WIRING[k].name != name
      {
        if WIRING[i].name == name {
          LoadConfig(WIRING[i]);
          return true;
        }
        i := i + 1;
      }
      return false;
    }

    /** `connect`: open and activate a client on `srv`, then wire every port.
        Opening or activating may fail; the client then stays disconnected. */
    method Connect(srv: Server, opens: bool, activates: bool)
      requires Valid() && srv.Valid()
      modifies this, srv
      ensures Valid()
      ensures old(server) != null ==> server == old(server) && statuses == old(statuses)
      ensures old(server) == null ==> (server != null <==> opens && activates)
      ensures old(server) == null && opens && activates ==>
        server == srv && srv.ports == old(srv.ports) &&
        srv.edges == AllPhases(old(srv.edges), srv.ports, sourceWiring, sinkWiring) &&
        statuses == old(statuses) + (if hasStatusCallback then [Connected] else [])
      ensures !(old(server) == null && opens && activates) ==> unchanged(srv) && statuses == old(statuses)
      ensures sourceWiring == old(sourceWiring) && sinkWiring == old(sinkWiring) && wiring == old(wiring)
    {
      if server != null {
        return;
      }
      if !opens {
        return;
      }
      if !activates {
        return;
      }
      server := srv;
      if hasStatusCallback {
        statuses := statuses + [Connected];
      }
      ApplyWiring();
    }

    /** `_port_registered`: a newly registered output port is reconciled as a
        source, an input port as a sink; unregistration changes nothing. */
    method PortRegistered(port: Port, registered: bool)
      requires Valid() && server != null
      modifies server
      ensures server.ports == old(server.ports)
      ensures !registered || (!port.isOutput && !port.isInput) ==>
        server.edges == old(server.edges) && server.log == old(server.log)
      ensures registered && port.isOutput ==> ReconciledBy(old(server.edges), old(server.log), server.edges, server.log, server.ports.Keys, SourceSide, port)
      ensures registered && !port.isOutput && port.isInput ==> ReconciledBy(old(server.edges), old(server.log), server.edges, server.log, server.ports.Keys, SinkSide, port)
    {
      if !registered {
        return;
      }
      if port.isOutput {
        ReconcilePort(port, SourceSide);
      } else if port.isInput {
        ReconcilePort(port, SinkSide);
      }
    }

    /** The state after reconciling `port` from `(edges0, log0)`: with no rule
        for the port nothing happens; otherwise the graph is `Reconciled` and
        the operations appended to the log are exactly the `Diff`. */
    ghost predicate ReconciledBy(edges0: set<Edge>, log0: seq<Op>, edges: set<Edge>, log: seq<Op>,
                                 existing: set<PortName>, side: Side, port: Port)
      reads this
    {
      var wanted := RuleFor(TableOf(side), port);
      if wanted.None? then edges == edges0 && log == log0
      else
        edges == Reconciled(edges0, existing, side, port.name, wanted.value) &&
        |log0| <= |log| && log[..|log0|] == log0 &&
        Elems(log[|log0|..]) == Diff(edges0, existing, side, port.name, wanted.value)
    }

    /** `_connect_source` / `_connect_sink`. */
    method ReconcilePort(port: Port, side: Side)
      requires server != null
      modifies server
      ensures server.ports == old(server.ports)
      ensures ReconciledBy(old(server.edges), old(server.log), server.edges, server.log, server.ports.Keys, side, port)
    {
      var wanted := RuleFor(TableOf(side), port);
      if wanted.None? {
        return;
      }
      var dests := wanted.value;
      var name := port.name;
      ghost var edges0 := server.edges;
      ghost var log0 := server.log;
      var connections := Peers(server.edges, side, name);
      DropUnwanted(side, name, dests);
      ghost var midLog := server.log;
      JoinMissing(side, name, dests, connections);
      assert server.log[|log0|..] == midLog[|log0|..] + server.log[|midLog|..];
      ElemsAppend(midLog[|log0|..], server.log[|midLog|..]);
      DiffReconciles(edges0, server.ports.Keys, side, name, dests);
    }

    /** The first loop of the reconciliation: disconnect every current peer
        of `name` that is not wanted. */
    method DropUnwanted(side: Side, name: PortName, dests: set<PortName>)
      requires server != null
      modifies server
      ensures server.ports == old(server.ports)
      ensures server.edges == old(server.edges) - EdgesTo(side, name, Drops(old(server.edges), side, name, dests))
      ensures |old(server.log)| <= |server.log| && server.log[..|old(server.log)|] == old(server.log)
      ensures Elems(server.log[|old(server.log)|..]) == Disconnects(side, name, Drops(old(server.edges), side, name, dests))
    {
      ghost var edges0 := server.edges;
      ghost var log0 := server.log;
      var connections := Peers(server.edges, side, name);
      var todo := connections;
      ghost var dropped: set<PortName> := {};
      while todo != {}
        invariant todo <= connections
        invariant dropped == (connections - todo) - dests
        invariant server.ports == old(server.ports)
        invariant server.edges == edges0 - EdgesTo(side, name, dropped)
        invariant |log0| <= |server.log| && server.log[..|log0|] == log0
        invariant Elems(server.log[|log0|..]) == Disconnects(side, name, dropped)
        decreases todo
      {
        var c :| c in todo;
        if c !in dests {
          ghost var before := server.log;
          server.DisconnectPorts(EdgeOf(side, name, c));
          assert server.log[|log0|..] == before[|log0|..] + [DisconnectOp(EdgeOf(side, name, c))];
          GrowByOne(side, name, dropped, c);
          dropped := dropped + {c};
        }
        todo := todo - {c};
      }
    }

    /** The second loop: connect every wanted peer of `name` that was not
        among its `connections` and exists. */
    method JoinMissing(side: Side, name: PortName, dests: set<PortName>, connections: set<PortName>)
      requires server != null
      modifies server
      ensures server.ports == old(server.ports)
      ensures server.edges == old(server.edges) + EdgesTo(side, name, (dests - connections) * server.ports.Keys)
      ensures |old(server.log)| <= |server.log| && server.log[..|old(server.log)|] == old(server.log)
      ensures Elems(server.log[|old(server.log)|..]) == Connects(side, name, (dests - connections) * server.ports.Keys)
    {
      ghost var edges0 := server.edges;
      ghost var log0 := server.log;
      var missing := dests;
      ghost var joined: set<PortName> := {};
      while missing != {}
        invariant missing <= dests
        invariant joined == ((dests - missing) - connections) * server.ports.Keys
        invariant server.ports == old(server.ports)
        invariant server.edges == edges0 + EdgesTo(side, name, joined)
        invariant |log0| <= |server.log| && server.log[..|log0|] == log0
        invariant Elems(server.log[|log0|..]) == Connects(side, name, joined)
        decreases missing
      {
        var d :| d in missing;
        if d !in connections && d in server.ports {
          ghost var before := server.log;
          server.ConnectPorts(EdgeOf(side, name, d));
          assert server.log[|log0|..] == before[|log0|..] + [ConnectOp(EdgeOf(side, name, d))];
          GrowByOne(side, name, joined, d);
          joined := joined + {d};
        }
        missing := missing - {d};
      }
    }

    /** Reconcile every port of one side, as `apply_wiring` does. */
    method ReconcileAll(side: Side)
      requires Valid() && server != null
      modifies server
      ensures server.ports == old(server.ports)
      ensures server.edges == Phase(old(server.edges), server.ports, TableOf(side), side, FacingPorts(server.ports, side))
      ensures |old(server.log)| <= |server.log| && server.log[..|old(server.log)|] == old(server.log)
    {
      var all := FacingPorts(server.ports, side);
      var todo := all;
      ghost var edges0 := server.edges;
      ghost var log0 := server.log;
      PhaseEmpty(edges0, server.ports, TableOf(side), side);
      while todo != {}
        invariant todo <= all
        invariant server.ports == old(server.ports)
        invariant server.edges == Phase(edges0, server.ports, TableOf(side), side, all - todo)
        invariant |log0| <= |server.log| && server.log[..|log0|] == log0
        decreases todo
      {
        var n :| n in todo;
        var port := server.ports[n];
        ghost var done := all - todo;
        ghost var log1 := server.log;
        ReconcilePort(port, side);
        assert server.log[..|log0|] == log1[..|log0|];
        if Governs(server.ports, TableOf(side), side, n) {
          PhaseStep(edges0, server.ports, TableOf(side), side, done, n);
        } else {
          PhaseSkip(edges0, server.ports, TableOf(side), side, done, n);
        }
        assert all - (todo - {n}) == done + {n};
        todo := todo - {n};
      }
    }

    /** `apply_wiring`: a no-op while disconnected; otherwise every output
        port is reconciled as a source, then every input port as a sink. */
    method ApplyWiring()
      requires Valid()
      modifies server
      ensures server != null ==> (server.ports == old(server.ports) &&
        server.edges == AllPhases(old(server.edges), server.ports, sourceWiring, sinkWiring) &&
        |old(server.log)| <= |server.log| && server.log[..|old(server.log)|] == old(server.log))
    {
      if server == null {
        return;
      }
      ghost var log0 := server.log;
      ReconcileAll(SourceSide);
      ghost var log1 := server.log;
      ReconcileAll(SinkSide);
      assert server.log[..|log0|] == log1[..|log0|];
    }
  }

  function FacingPorts(ports: map<PortName, Port>, side: Side): set<PortName>
  {
    set n | n in ports && Facing(ports[n], side)
  }

  /** The connections after `apply_wiring`: the pass over outputs, then the
      pass over inputs. */
  function AllPhases(edges: set<Edge>, ports: map<PortName, Port>, sources: Table, sinks: Table): set<Edge>
  {
    var afterSources := Phase(edges, ports, sources, SourceSide, FacingPorts(ports, SourceSide));
    Phase(afterSources, ports, sinks, SinkSide, FacingPorts(ports, SinkSide))
  }
}
