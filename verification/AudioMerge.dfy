/** Merging PipeWire nodes into the ALSA endpoints. */
module AudioMerge {
  import opened Wrappers

  datatype Backend = Alsa | Pipewire

  datatype Direction = Capture | Playback

  datatype Transport = Transport(backend: Backend, selector: string, numericId: Option<nat>)

  datatype Endpoint = Endpoint(
    id: string,
    name: string,
    direction: Direction,
    channelsMin: Option<nat>,
    channelsMax: Option<nat>,
    rateMin: Option<nat>,
    rateMax: Option<nat>,
    formats: seq<string>,
    transports: seq<Transport>,
    isDefault: bool)

  /** A PipeWire node with its properties already looked up: `selector` is the ALSA
    * name of its card and device, `cardName` the normalized name of its card. */
  datatype Candidate = Candidate(
    id: nat,
    mediaClass: Option<string>,
    selector: Option<string>,
    nodeName: string,
    cardName: Option<string>,
    displayName: string,
    channels: Option<nat>,
    rate: Option<nat>,
    format: Option<string>,
    isDefault: bool)

  function DirectionOf(c: Candidate): Option<Direction> {
    if c.mediaClass == Some("Audio/Source") then Some(Capture)
    else if c.mediaClass == Some("Audio/Sink") then Some(Playback)
    else None
  }

  function TransportOf(c: Candidate): Transport { Transport(Pipewire, c.nodeName, Some(c.id)) }

  function Lowered(ch: char): char { if 'A' <= ch <= 'Z' then 'a' + (ch - 'A') else ch }

  predicate Alphanumeric(ch: char) { '0' <= ch <= '9' || 'a' <= ch <= 'z' || 'A' <= ch <= 'Z' }

  /** Letters and digits in lower case. */
  function NormalizedName(name: string): (r: string)
    ensures forall ch :: ch in r ==> Alphanumeric(ch) && Lowered(ch) == ch
  {
    if name == [] then []
    else (if Alphanumeric(name[0]) then [Lowered(name[0])] else []) + NormalizedName(name[1..])
  }

  lemma {:induction false} NormalizedAppend(a: string, b: string)
    ensures NormalizedName(a + b) == NormalizedName(a) + NormalizedName(b)
    decreases |a|
  {
    if a == [] {
      assert a + b == b;
    } else {
      assert (a + b)[1..] == a[1..] + b;
      NormalizedAppend(a[1..], b);
    }
  }

  lemma {:induction false} NormalizedChar(ch: char)
    ensures NormalizedName([ch]) ==
            if '0' <= ch <= '9' || 'a' <= ch <= 'z' then [ch]
            else if 'A' <= ch <= 'Z' then [ch - 'A' + 'a']
            else []
  {
    assert [ch][1..] == "";
  }

  /** Letters and digits are kept in order and in lower case, everything else goes. */
  lemma {:induction false} NormalizedExact(name: string, ch: char)
    ensures NormalizedName("") == ""
    ensures NormalizedName(name + [ch]) ==
            NormalizedName(name) + if '0' <= ch <= '9' || 'a' <= ch <= 'z' then [ch]
                                   else if 'A' <= ch <= 'Z' then [ch - 'A' + 'a']
                                   else []
  {
    NormalizedAppend(name, [ch]);
    NormalizedChar(ch);
  }

  predicate HasAlsa(e: Endpoint) { exists t :: t in e.transports && t.backend.Alsa? }

  predicate Accepts(e: Endpoint, c: Candidate, direction: Direction) {
    && e.direction == direction && HasAlsa(e)
    && ((c.selector.Some? && exists t :: t in e.transports && t.selector == c.selector.value)
        || (c.cardName.Some? && NormalizedName(e.name) == c.cardName.value))
  }

  /** The first endpoint that accepts the node. */
  function Target(endpoints: seq<Endpoint>, c: Candidate, direction: Direction): (r: Option<nat>)
    ensures r.Some? ==> r.value < |endpoints| && Accepts(endpoints[r.value], c, direction)
    ensures forall j :: 0 <= j < (if r.Some? then r.value else |endpoints|) ==> !Accepts(endpoints[j], c, direction)
  {
    if endpoints == [] then None
    else if Accepts(endpoints[0], c, direction) then Some(0)
    else
      var rest := Target(endpoints[1..], c, direction);
      if rest.Some? then Some(rest.value + 1) else None
  }

  function OrInsert(known: Option<nat>, value: Option<nat>): Option<nat> {
    if known.Some? then known else value
  }

  function Joined(e: Endpoint, c: Candidate): Endpoint {
    e.(transports := e.transports + [TransportOf(c)],
       isDefault := e.isDefault || c.isDefault,
       channelsMin := OrInsert(e.channelsMin, c.channels),
       channelsMax := OrInsert(e.channelsMax, c.channels),
       rateMin := OrInsert(e.rateMin, c.rate),
       rateMax := OrInsert(e.rateMax, c.rate),
       formats := if c.format.Some? && c.format.value !in e.formats then e.formats + [c.format.value] else e.formats)
  }

  function Created(c: Candidate, direction: Direction, idOf: (string, Direction) -> string): Endpoint {
    Endpoint(idOf(c.nodeName, direction), c.displayName, direction, c.channels, c.channels, c.rate, c.rate,
             if c.format.Some? then [c.format.value] else [], [TransportOf(c)], c.isDefault)
  }

  function MergeOne(endpoints: seq<Endpoint>, c: Candidate, idOf: (string, Direction) -> string): seq<Endpoint> {
    var direction := DirectionOf(c);
    if direction.None? then endpoints
    else
      var target := Target(endpoints, c, direction.value);
      if target.Some? then endpoints[target.value := Joined(endpoints[target.value], c)]
      else endpoints + [Created(c, direction.value, idOf)]
  }

  function Merge(endpoints: seq<Endpoint>, candidates: seq<Candidate>,
          idOf: (string, Direction) -> string): seq<Endpoint>
    decreases |candidates|
  {
    if candidates == [] then endpoints else Merge(MergeOne(endpoints, candidates[0], idOf), candidates[1..], idOf)
  }

  // -------------------------------------------------------------- conservation

  function Transports(endpoints: seq<Endpoint>): multiset<Transport> {
    if endpoints == [] then multiset{}
    else Transports(endpoints[..|endpoints| - 1]) + multiset(endpoints[|endpoints| - 1].transports)
  }

  /** A node with this direction: a source captures, a sink plays back. */
  predicate Flows(c: Candidate, direction: Direction) {
    c.mediaClass == Some(if direction.Capture? then "Audio/Source" else "Audio/Sink")
  }

  predicate SourceOrSink(c: Candidate) { Flows(c, Capture) || Flows(c, Playback) }

  function OwnTransport(c: Candidate): Transport { Transport(Pipewire, c.nodeName, Some(c.id)) }

  /** The transports of the sources and sinks among the nodes. */
  function Offered(candidates: seq<Candidate>): multiset<Transport> {
    if candidates == [] then multiset{}
    else (if SourceOrSink(candidates[0]) then multiset{OwnTransport(candidates[0])} else multiset{})
         + Offered(candidates[1..])
  }

  function SourcesAndSinks(candidates: seq<Candidate>): nat {
    if candidates == [] then 0
    else (if SourceOrSink(candidates[0]) then 1 else 0) + SourcesAndSinks(candidates[1..])
  }

  lemma {:induction false} DirectionExact(c: Candidate, direction: Direction)
    ensures DirectionOf(c) == Some(direction) <==> Flows(c, direction)
    ensures DirectionOf(c).Some? <==> SourceOrSink(c)
  {
    assert "Audio/Source"[6] == 'S' && "Audio/Sink"[7] == 'i' && "Audio/Source"[7] == 'o';
  }

  lemma {:induction false} MultisetOne(after: seq<Transport>, before: seq<Transport>, t: Transport)
    requires after == before + [t]
    ensures multiset(after) == multiset(before) + multiset{t}
  {
  }

  lemma {:induction false} TransportsUpdate(endpoints: seq<Endpoint>, i: nat, e: Endpoint, t: Transport)
    requires i < |endpoints| && e.transports == endpoints[i].transports + [t]
    ensures Transports(endpoints[i := e]) == Transports(endpoints) + multiset{t}
  {
    var n := |endpoints| - 1;
    if i == n {
      assert endpoints[i := e][..n] == endpoints[..n];
      MultisetOne(e.transports, endpoints[i].transports, t);
    } else {
      assert endpoints[i := e][..n] == endpoints[..n][i := e];
      TransportsUpdate(endpoints[..n], i, e, t);
    }
  }

  lemma {:induction false} TransportsAppend(endpoints: seq<Endpoint>, e: Endpoint)
    ensures Transports(endpoints + [e]) == Transports(endpoints) + multiset(e.transports)
  {
    assert (endpoints + [e])[..|endpoints|] == endpoints;
  }

  lemma {:induction false} MergeOneConserves(endpoints: seq<Endpoint>, c: Candidate,
          idOf: (string, Direction) -> string)
    ensures Transports(MergeOne(endpoints, c, idOf)) ==
            Transports(endpoints) + if SourceOrSink(c) then multiset{OwnTransport(c)} else multiset{}
  {
    var direction := DirectionOf(c);
    DirectionExact(c, Capture);
    if direction.Some? {
      var target := Target(endpoints, c, direction.value);
      if target.Some? {
        TransportsUpdate(endpoints, target.value, Joined(endpoints[target.value], c), TransportOf(c));
      } else {
        TransportsAppend(endpoints, Created(c, direction.value, idOf));
      }
    }
  }

  lemma {:induction false} MultisetGroup(a: multiset<Transport>, b: multiset<Transport>, c: multiset<Transport>)
    ensures (a + b) + c == a + (b + c) && |b + c| == |b| + |c|
  {
  }

  /** Merging conserves routes: the transports after it are those before it and
    * one for every source or sink, none lost and none duplicated. */
  lemma {:induction false} MergeConserves(endpoints: seq<Endpoint>, candidates: seq<Candidate>,
          idOf: (string, Direction) -> string)
    ensures Transports(Merge(endpoints, candidates, idOf)) == Transports(endpoints) + Offered(candidates)
    ensures |Offered(candidates)| == SourcesAndSinks(candidates)
    decreases |candidates|
  {
    if candidates != [] {
      var next := MergeOne(endpoints, candidates[0], idOf);
      MergeOneConserves(endpoints, candidates[0], idOf);
      MergeConserves(next, candidates[1..], idOf);
      MultisetGroup(Transports(endpoints),
                    if SourceOrSink(candidates[0]) then multiset{OwnTransport(candidates[0])} else multiset{},
                    Offered(candidates[1..]));
    }
  }

  // ------------------------------------------------------- what stays, what joins

  predicate NoDuplicates(formats: seq<string>) {
    forall i, j :: 0 <= i < j < |formats| ==> formats[i] != formats[j]
  }

  predicate Keeps(known: Option<nat>, now: Option<nat>) { known.Some? ==> now == known }

  /** An original endpoint later: same place in the list, same identity, more
    * transports and formats at the end, and no known range replaced. */
  predicate Extends(before: Endpoint, after: Endpoint) {
    && after.id == before.id && after.name == before.name && after.direction == before.direction
    && before.transports <= after.transports && before.formats <= after.formats
    && (forall t :: t in after.transports[|before.transports|..] ==> t.backend.Pipewire?)
    && (NoDuplicates(before.formats) ==> NoDuplicates(after.formats))
    && (before.isDefault ==> after.isDefault)
    && Keeps(before.channelsMin, after.channelsMin) && Keeps(before.channelsMax, after.channelsMax)
    && Keeps(before.rateMin, after.rateMin) && Keeps(before.rateMax, after.rateMax)
  }

  /** An endpoint made here has one PipeWire transport, and so never accepts a node. */
  predicate Made(e: Endpoint) {
    |e.transports| == 1 && e.transports[0].backend.Pipewire? && |e.formats| <= 1
  }

  predicate Grown(before: seq<Endpoint>, after: seq<Endpoint>) {
    && |before| <= |after|
    && (forall i :: 0 <= i < |before| ==> Extends(before[i], after[i]))
    && (forall i :: |before| <= i < |after| ==> Made(after[i]))
  }

  lemma {:induction false} JoinedExtends(before: Endpoint, e: Endpoint, c: Candidate)
    requires Extends(before, e)
    ensures Extends(before, Joined(e, c))
  {
  }

  lemma {:induction false} MadeNeverAccepts(e: Endpoint, c: Candidate, direction: Direction)
    requires Made(e)
    ensures !Accepts(e, c, direction)
  {
  }

  lemma {:induction false} MergeOneGrows(before: seq<Endpoint>, endpoints: seq<Endpoint>, c: Candidate,
          idOf: (string, Direction) -> string)
    requires Grown(before, endpoints)
    ensures Grown(before, MergeOne(endpoints, c, idOf))
  {
    var direction := DirectionOf(c);
    if direction.Some? {
      var target := Target(endpoints, c, direction.value);
      if target.Some? {
        if target.value >= |before| {
          MadeNeverAccepts(endpoints[target.value], c, direction.value);
        } else {
          JoinedExtends(before[target.value], endpoints[target.value], c);
        }
      }
    }
  }

  lemma {:induction false} MergeGrowsFrom(before: seq<Endpoint>, endpoints: seq<Endpoint>, candidates: seq<Candidate>,
          idOf: (string, Direction) -> string)
    requires Grown(before, endpoints)
    ensures Grown(before, Merge(endpoints, candidates, idOf))
    decreases |candidates|
  {
    if candidates != [] {
      MergeOneGrows(before, endpoints, candidates[0], idOf);
      MergeGrowsFrom(before, MergeOne(endpoints, candidates[0], idOf), candidates[1..], idOf);
    }
  }

  /** Original endpoints keep their place, identity and known ranges, format lists
    * without duplicates stay so, and appended endpoints are never merge targets. */
  lemma {:induction false} MergeGrows(endpoints: seq<Endpoint>, candidates: seq<Candidate>,
          idOf: (string, Direction) -> string)
    ensures Grown(endpoints, Merge(endpoints, candidates, idOf))
  {
    MergeGrowsFrom(endpoints, endpoints, candidates, idOf);
  }

  // ------------------------------------------------------------- where nodes go

  /** The transport at `p` of an original endpoint is that of this node, of the
    * endpoint's own direction, which its ALSA name or its card brought there. */
  predicate CameFrom(before: Endpoint, after: Endpoint, p: nat, c: Candidate)
    requires p < |after.transports|
  {
    && after.transports[p] == OwnTransport(c) && Flows(c, before.direction) && HasAlsa(before)
    && (|| (c.selector.Some? && exists q :: 0 <= q < p && after.transports[q].selector == c.selector.value)
        || c.cardName == Some(NormalizedName(before.name)))
  }

  /** The endpoint is another one than this node's: it runs the other way, has no
    * ALSA transport, or shares neither a transport name nor the card. */
  predicate Foreign(e: Endpoint, c: Candidate, direction: Direction) {
    || e.direction != direction
    || (forall t :: t in e.transports ==> t.backend.Pipewire?)
    || (&& (c.selector.Some? ==> forall t :: t in e.transports ==> t.selector != c.selector.value)
        && c.cardName != Some(NormalizedName(e.name)))
  }

  /** An endpoint made for this node alone, to which every original one is foreign. */
  predicate MadeFor(before: seq<Endpoint>, e: Endpoint, c: Candidate, idOf: (string, Direction) -> string) {
    && Flows(c, e.direction) && e.transports == [OwnTransport(c)]
    && e.id == idOf(c.nodeName, e.direction) && e.name == c.displayName && e.isDefault == c.isDefault
    && e.channelsMin == e.channelsMax == c.channels && e.rateMin == e.rateMax == c.rate
    && e.formats == (if c.format.Some? then [c.format.value] else [])
    && forall i :: 0 <= i < |before| ==> Foreign(before[i], c, e.direction)
  }

  predicate CameFromOne(before: Endpoint, after: Endpoint, p: nat, nodes: seq<Candidate>)
    requires p < |after.transports|
  {
    exists c :: c in nodes && CameFrom(before, after, p, c)
  }

  predicate JoinedBy(before: Endpoint, after: Endpoint, nodes: seq<Candidate>) {
    forall p :: |before.transports| <= p < |after.transports| ==> CameFromOne(before, after, p, nodes)
  }

  predicate Routed(before: seq<Endpoint>, after: seq<Endpoint>, nodes: seq<Candidate>,
      idOf: (string, Direction) -> string)
  {
    && |before| <= |after|
    && (forall i :: 0 <= i < |before| ==> JoinedBy(before[i], after[i], nodes))
    && (forall i :: |before| <= i < |after| ==> exists c :: c in nodes && MadeFor(before, after[i], c, idOf))
  }

  lemma {:induction false} ExtendedAccepts(before: Endpoint, e: Endpoint, c: Candidate, direction: Direction)
    requires Extends(before, e)
    ensures Accepts(before, c, direction) ==> Accepts(e, c, direction)
    ensures HasAlsa(e) ==> HasAlsa(before)
  {
    assert e.transports == before.transports + e.transports[|before.transports|..];
  }

  lemma {:induction false} CameBefore(before: Endpoint, e: Endpoint, after: Endpoint, p: nat, nodes: seq<Candidate>)
    requires p < |e.transports| && e.transports <= after.transports && CameFromOne(before, e, p, nodes)
    ensures CameFromOne(before, after, p, nodes)
  {
    var c :| c in nodes && CameFrom(before, e, p, c);
    assert forall q :: 0 <= q <= p ==> after.transports[q] == e.transports[q];
    if c.selector.Some? && exists q :: 0 <= q < p && e.transports[q].selector == c.selector.value {
      var q :| 0 <= q < p && e.transports[q].selector == c.selector.value;
      assert after.transports[q].selector == c.selector.value;
    }
    assert CameFrom(before, after, p, c);
  }

  lemma {:induction false} ComesNow(before: Endpoint, e: Endpoint, c: Candidate)
    requires Extends(before, e) && Accepts(e, c, e.direction) && DirectionOf(c) == Some(e.direction)
    ensures CameFrom(before, Joined(e, c), |e.transports|, c)
  {
    var after := Joined(e, c);
    ExtendedAccepts(before, e, c, e.direction);
    DirectionExact(c, e.direction);
    if c.selector.Some? && exists t :: t in e.transports && t.selector == c.selector.value {
      var t :| t in e.transports && t.selector == c.selector.value;
      var q :| 0 <= q < |e.transports| && e.transports[q] == t;
      assert after.transports[q].selector == c.selector.value;
    }
  }

  lemma {:induction false} JoiningRoutes(before: Endpoint, e: Endpoint, nodes: seq<Candidate>, c: Candidate)
    requires Extends(before, e) && JoinedBy(before, e, nodes) && c in nodes && Accepts(e, c, e.direction)
    requires DirectionOf(c) == Some(e.direction)
    ensures JoinedBy(before, Joined(e, c), nodes)
  {
    var after := Joined(e, c);
    ComesNow(before, e, c);
    forall p | |before.transports| <= p < |after.transports| ensures CameFromOne(before, after, p, nodes) {
      if p < |e.transports| { CameBefore(before, e, after, p, nodes); }
    }
  }

  lemma {:induction false} MakingRoutes(before: seq<Endpoint>, endpoints: seq<Endpoint>, c: Candidate,
          direction: Direction, idOf: (string, Direction) -> string)
    requires Grown(before, endpoints) && DirectionOf(c) == Some(direction) && Target(endpoints, c, direction).None?
    ensures MadeFor(before, Created(c, direction, idOf), c, idOf)
  {
    DirectionExact(c, direction);
    forall i | 0 <= i < |before| ensures Foreign(before[i], c, direction) {
      ExtendedAccepts(before[i], endpoints[i], c, direction);
    }
  }

  lemma {:induction false} MergeOneRoutes(before: seq<Endpoint>, endpoints: seq<Endpoint>, nodes: seq<Candidate>,
          c: Candidate, idOf: (string, Direction) -> string)
    requires Grown(before, endpoints) && Routed(before, endpoints, nodes, idOf) && c in nodes
    ensures Routed(before, MergeOne(endpoints, c, idOf), nodes, idOf)
  {
    var direction := DirectionOf(c);
    if direction.Some? {
      var target := Target(endpoints, c, direction.value);
      if target.Some? {
        if target.value >= |before| {
          MadeNeverAccepts(endpoints[target.value], c, direction.value);
        } else {
          JoiningRoutes(before[target.value], endpoints[target.value], nodes, c);
        }
      } else {
        MakingRoutes(before, endpoints, c, direction.value, idOf);
      }
    }
  }

  lemma {:induction false} MergeRoutesFrom(before: seq<Endpoint>, endpoints: seq<Endpoint>, nodes: seq<Candidate>,
          n: nat, idOf: (string, Direction) -> string)
    requires Grown(before, endpoints) && Routed(before, endpoints, nodes, idOf) && n <= |nodes|
    ensures Routed(before, Merge(endpoints, nodes[n..], idOf), nodes, idOf)
    decreases |nodes| - n
  {
    if n < |nodes| {
      assert nodes[n..][0] == nodes[n] && nodes[n..][1..] == nodes[n + 1..];
      MergeOneRoutes(before, endpoints, nodes, nodes[n], idOf);
      MergeOneGrows(before, endpoints, nodes[n], idOf);
      MergeRoutesFrom(before, MergeOne(endpoints, nodes[n], idOf), nodes, n + 1, idOf);
    }
  }

  /** Every transport that joined an endpoint is that of a node of its direction,
    * brought there by its ALSA name or its card; every appended endpoint is made
    * for one node that no original endpoint accepts. */
  lemma {:induction false} MergeRoutes(endpoints: seq<Endpoint>, nodes: seq<Candidate>,
          idOf: (string, Direction) -> string)
    ensures Routed(endpoints, Merge(endpoints, nodes, idOf), nodes, idOf)
  {
    assert nodes[0..] == nodes;
    MergeRoutesFrom(endpoints, endpoints, nodes, 0, idOf);
  }

  /** The endpoint serves the node: its direction, transport, format, ranges and
    * being the default. */
  predicate Serves(e: Endpoint, c: Candidate) {
    && Flows(c, e.direction) && OwnTransport(c) in e.transports
    && (c.isDefault ==> e.isDefault) && (c.format.Some? ==> c.format.value in e.formats)
    && (c.channels.Some? ==> e.channelsMin.Some? && e.channelsMax.Some?)
    && (c.rate.Some? ==> e.rateMin.Some? && e.rateMax.Some?)
  }

  predicate Served(endpoints: seq<Endpoint>, c: Candidate) {
    exists i :: 0 <= i < |endpoints| && Serves(endpoints[i], c)
  }

  lemma {:induction false} JoinedServes(e: Endpoint, c: Candidate)
    requires DirectionOf(c) == Some(e.direction)
    ensures Serves(Joined(e, c), c)
    ensures forall other :: Serves(e, other) ==> Serves(Joined(e, c), other)
  {
    DirectionExact(c, e.direction);
    assert Joined(e, c).transports[|e.transports|] == OwnTransport(c);
  }

  lemma {:induction false} MergeOneServes(endpoints: seq<Endpoint>, c: Candidate,
          idOf: (string, Direction) -> string)
    ensures SourceOrSink(c) ==> Served(MergeOne(endpoints, c, idOf), c)
    ensures forall other :: Served(endpoints, other) ==> Served(MergeOne(endpoints, c, idOf), other)
  {
    var direction := DirectionOf(c);
    var next := MergeOne(endpoints, c, idOf);
    DirectionExact(c, if direction.Some? then direction.value else Capture);
    if direction.Some? {
      var target := Target(endpoints, c, direction.value);
      if target.Some? {
        JoinedServes(endpoints[target.value], c);
        assert Serves(next[target.value], c);
      } else {
        assert Serves(next[|endpoints|], c);
      }
      forall other | Served(endpoints, other) ensures Served(next, other) {
        var i :| 0 <= i < |endpoints| && Serves(endpoints[i], other);
        assert Serves(next[i], other);
      }
    }
  }

  lemma {:induction false} StaysServed(endpoints: seq<Endpoint>, nodes: seq<Candidate>, c: Candidate,
          idOf: (string, Direction) -> string)
    requires Served(endpoints, c)
    ensures Served(Merge(endpoints, nodes, idOf), c)
    decreases |nodes|
  {
    if nodes != [] {
      MergeOneServes(endpoints, nodes[0], idOf);
      StaysServed(MergeOne(endpoints, nodes[0], idOf), nodes[1..], c, idOf);
    }
  }

  /** And every source or sink ends up served by some endpoint. */
  lemma {:induction false} EveryNodeServed(endpoints: seq<Endpoint>, nodes: seq<Candidate>, i: nat,
          idOf: (string, Direction) -> string)
    requires i < |nodes| && SourceOrSink(nodes[i])
    ensures Served(Merge(endpoints, nodes, idOf), nodes[i])
    decreases |nodes|
  {
    var next := MergeOne(endpoints, nodes[0], idOf);
    if i == 0 {
      MergeOneServes(endpoints, nodes[0], idOf);
      StaysServed(next, nodes[1..], nodes[0], idOf);
    } else {
      EveryNodeServed(next, nodes[1..], i - 1, idOf);
    }
  }

  /** The endpoint list as it is edited. */
  class Inventory {
    var endpoints: seq<Endpoint>

    constructor (endpoints: seq<Endpoint>)
      ensures this.endpoints == endpoints
    {
      this.endpoints := endpoints;
    }

    method FindTarget(c: Candidate, direction: Direction) returns (r: Option<nat>)
      ensures r == Target(endpoints, c, direction)
    {
      var i := 0;
      while i < |endpoints|
        invariant 0 <= i <= |endpoints|
        invariant forall j :: 0 <= j < i ==> !Accepts(endpoints[j], c, direction)
      {
        if Accepts(endpoints[i], c, direction) { return Some(i); }
        i := i + 1;
      }
      r := None;
    }

    method MergePipewire(candidates: seq<Candidate>, idOf: (string, Direction) -> string)
      modifies this
      ensures endpoints == Merge(old(endpoints), candidates, idOf)
    {
      var i := 0;
      assert candidates[0..] == candidates;
      while i < |candidates|
        invariant 0 <= i <= |candidates|
        invariant Merge(old(endpoints), candidates, idOf) == Merge(endpoints, candidates[i..], idOf)
      {
        assert candidates[i..][0] == candidates[i] && candidates[i..][1..] == candidates[i + 1..];
        var c := candidates[i];
        var direction := DirectionOf(c);
        if direction.Some? {
          var target := FindTarget(c, direction.value);
          if target.Some? {
            endpoints := endpoints[target.value := Joined(endpoints[target.value], c)];
          } else {
            endpoints := endpoints + [Created(c, direction.value, idOf)];
          }
        }
        i := i + 1;
      }
    }
  }
}
