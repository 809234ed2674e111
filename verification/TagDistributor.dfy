/** Distributing one stream of tags to many clients, which come and go. */
module TagDistributor {
  import opened Media
  import opened Bootstrapper
  import opened BootstrapperFacts

  /** The clients, each with the flag that tells whether it was sent an Eos. */
  type Clients = map<nat, bool>

  function AllDone(clients: Clients): Clients {
    map c | c in clients :: true
  }

  /** Running the callbacks of some clients with a series of tags. */
  function Deliver(received: map<nat, seq<Tag>>, clients: set<nat>, tags: seq<Tag>): map<nat, seq<Tag>> {
    map c | c in received :: if c in clients then received[c] + tags else received[c]
  }

  /** The distributor's own source, when it has a name. */
  function OwnStart(name: string, flavour: nat): seq<Tag> {
    if name == "" then [] else [SourceStarted(name, flavour)]
  }

  function OwnEnd(name: string, flavour: nat): seq<Tag> {
    if name == "" then [] else [SourceEnded(name, flavour)]
  }

  /** What a client is told when it joins. */
  function Welcome(name: string, flavour: nat, b: Boot): seq<Tag> {
    OwnStart(name, flavour) + ([BootstrapBegin] + Snapshot(b) + [BootstrapEnd])
  }

  // ----- Reading a client's log -----

  /** The sources open after a series of tags; None when a source was ended that
      was not the innermost one, or an Eos came with sources open. */
  function Read(tags: seq<Tag>): Option<seq<string>> {
    if tags == [] then Some([])
    else
      var before, last := Read(tags[..|tags| - 1]), tags[|tags| - 1];
      if before.None? then None else ReadOne(before.value, last)
  }

  function ReadOne(open: seq<string>, tag: Tag): Option<seq<string>> {
    match tag
    case SourceStarted(name, _) => Some(open + [name])
    case SourceEnded(name, _) => if open != [] && open[|open| - 1] == name then Some(open[..|open| - 1]) else None
    case Eos => if open == [] then Some([]) else None
    case _ => Some(open)
  }

  function Names(sources: seq<Tag>): (r: seq<string>)
    requires AllStarted(sources)
    ensures |r| == |sources|
  {
    if sources == [] then [] else Names(sources[..|sources| - 1]) + [sources[|sources| - 1].name]
  }

  function Own(name: string): seq<string> {
    if name == "" then [] else [name]
  }

  ghost predicate NoEos(tags: seq<Tag>) {
    forall i :: 0 <= i < |tags| ==> !tags[i].Eos?
  }

  /** The first Eos in the log came with no source open. */
  ghost predicate EndedProperly(tags: seq<Tag>) {
    exists e :: 0 <= e < |tags| && EndsAt(tags, e)
  }

  ghost predicate EndsAt(tags: seq<Tag>, e: nat)
    requires e < |tags|
  {
    tags[e].Eos? && NoEos(tags[..e]) && Read(tags[..e + 1]) == Some([])
  }

  ghost predicate Bracketed(tags: seq<Tag>, done: bool, open: seq<string>) {
    if done then EndedProperly(tags) else NoEos(tags) && Read(tags) == Some(open)
  }

  lemma ReadAppend(tags: seq<Tag>, tag: Tag)
    ensures Read(tags + [tag]) == if Read(tags).None? then None else ReadOne(Read(tags).value, tag)
  {
    assert (tags + [tag])[..|tags|] == tags;
  }

  lemma ReadSnoc(tags: seq<Tag>, more: seq<Tag>)
    requires more != []
    ensures var before := Read(tags + more[..|more| - 1]);
      Read(tags + more) == if before.None? then None else ReadOne(before.value, more[|more| - 1])
  {
    ReadAppend(tags + more[..|more| - 1], more[|more| - 1]);
    assert tags + more == (tags + more[..|more| - 1]) + [more[|more| - 1]];
  }

  lemma ReadCons(tags: seq<Tag>, tag: Tag, more: seq<Tag>)
    ensures Read(tags + ([tag] + more)) == Read((tags + [tag]) + more)
  {
    assert tags + ([tag] + more) == (tags + [tag]) + more;
  }

  ghost predicate OpensNothing(tags: seq<Tag>) {
    forall i :: 0 <= i < |tags| ==> !tags[i].SourceStarted? && !tags[i].SourceEnded? && !tags[i].Eos?
  }

  /** Tags that open and close nothing change nothing. */
  lemma {:induction false} ReadNeutral(tags: seq<Tag>, more: seq<Tag>)
    requires OpensNothing(more)
    ensures Read(tags + more) == Read(tags)
  {
    if more == [] {
      assert tags + more == tags;
    } else {
      var n := |more| - 1;
      ReadNeutral(tags, more[..n]);
      ReadSnoc(tags, more);
    }
  }

  lemma {:induction false} ReadStarts(tags: seq<Tag>, open: seq<string>, sources: seq<Tag>)
    requires Read(tags) == Some(open) && AllStarted(sources)
    ensures Read(tags + sources) == Some(open + Names(sources))
  {
    if sources == [] {
      assert tags + sources == tags && open + [] == open;
    } else {
      var n := |sources| - 1;
      ReadStarts(tags, open, sources[..n]);
      ReadSnoc(tags, sources);
      assert (open + Names(sources[..n])) + [sources[n].name] == open + Names(sources);
    }
  }

  ghost predicate OfFlavour(sources: seq<Tag>, flavour: nat)
    requires AllStarted(sources)
  {
    forall i :: 0 <= i < |sources| ==> sources[i].flavour == flavour
  }

  lemma PopLast(open: seq<string>, sources: seq<Tag>)
    requires AllStarted(sources) && sources != []
    ensures ReadOne(open + Names(sources), Ended(sources[|sources| - 1])) ==
        Some(open + Names(sources[..|sources| - 1]))
  {
    var before, stack := open + Names(sources[..|sources| - 1]), open + Names(sources);
    assert stack == before + [sources[|sources| - 1].name] && stack[..|stack| - 1] == before;
  }

  lemma {:induction false} ReadClosing(tags: seq<Tag>, open: seq<string>, sources: seq<Tag>, flavour: nat)
    requires AllStarted(sources) && OfFlavour(sources, flavour)
    requires Read(tags) == Some(open + Names(sources))
    ensures Read(tags + Closing(sources, flavour)) == Some(open)
    decreases |sources|
  {
    if sources == [] {
      assert tags + [] == tags && open + [] == open;
    } else {
      var n := |sources| - 1;
      var end := Ended(sources[n]);
      PopLast(open, sources);
      ReadAppend(tags, end);
      ReadClosing(tags + [end], open, sources[..n], flavour);
      ReadCons(tags, end, Closing(sources[..n], flavour));
    }
  }

  lemma {:induction false} ReadShrinksBy(tags: seq<Tag>, open: seq<string>, ended: seq<Tag>)
    requires Read(tags) == Some(open) && forall i :: 0 <= i < |ended| ==> ended[i].SourceEnded?
    ensures Read(tags + ended).Some? ==> |Read(tags + ended).value| == |open| - |ended|
  {
    if ended == [] {
      assert tags + ended == tags;
    } else {
      var n := |ended| - 1;
      ReadShrinksBy(tags, open, ended[..n]);
      ReadSnoc(tags, ended);
    }
  }

  lemma {:induction false} ClosingSize(sources: seq<Tag>, flavour: nat)
    requires AllStarted(sources)
    ensures forall i :: 0 <= i < |Closing(sources, flavour)| ==> Closing(sources, flavour)[i].SourceEnded?
    ensures |Closing(sources, flavour)| <= |sources|
    ensures |Closing(sources, flavour)| == |sources| <==> OfFlavour(sources, flavour)
  {
    if sources != [] {
      ClosingSize(sources[..|sources| - 1], flavour);
    }
  }

  /** Playing the end closes exactly what the sources had opened if and only if all
      of them are of the flavour played. */
  lemma ClosingRestoresIff(tags: seq<Tag>, open: seq<string>, sources: seq<Tag>, flavour: nat)
    requires AllStarted(sources) && Read(tags) == Some(open + Names(sources))
    ensures Read(tags + Closing(sources, flavour)) == Some(open) <==> OfFlavour(sources, flavour)
  {
    ClosingSize(sources, flavour);
    ReadShrinksBy(tags, open + Names(sources), Closing(sources, flavour));
    if OfFlavour(sources, flavour) {
      ReadClosing(tags, open, sources, flavour);
    }
  }

  lemma StartStep(open: seq<string>, sources: seq<Tag>, tag: Tag)
    requires AllStarted(sources) && tag.SourceStarted?
    ensures AllStarted(sources + [tag])
    ensures ReadOne(open + Names(sources), tag) == Some(open + Names(sources + [tag]))
  {
    assert (sources + [tag])[..|sources|] == sources;
    assert (open + Names(sources)) + [tag.name] == open + (Names(sources) + [tag.name]);
  }

  lemma EndStepIff(own: seq<string>, sources: seq<Tag>, tag: Tag)
    requires AllStarted(sources) && tag.SourceEnded?
    ensures var rest := if sources == [] then [] else sources[..|sources| - 1];
      ReadOne(own + Names(sources), tag) == Some(own + Names(rest)) <==>
      sources != [] && sources[|sources| - 1].name == tag.name
  {
    var open := own + Names(sources);
    if sources == [] {
      assert open == own;
    } else {
      assert open[|open| - 1] == sources[|sources| - 1].name;
      assert open[..|open| - 1] == own + Names(sources[..|sources| - 1]);
    }
  }

  /** A tag keeps a client's brackets in step with the bootstrapper's if and only if
      it does not end a source other than the innermost one known. */
  lemma StepKeptIff(tags: seq<Tag>, own: seq<string>, b: Boot, tag: Tag)
    requires AllStarted(b.sources) && !tag.Eos?
    requires Read(tags) == Some(own + Names(b.sources))
    ensures AllStarted(Process(b, tag).sources)
    ensures Read(tags + [tag]) == Some(own + Names(Process(b, tag).sources)) <==>
      (tag.SourceEnded? ==> b.sources != [] && b.sources[|b.sources| - 1].name == tag.name)
  {
    ReadAppend(tags, tag);
    if tag.SourceStarted? {
      StartStep(own, b.sources, tag);
    } else if tag.SourceEnded? {
      EndStepIff(own, b.sources, tag);
    } else {
      assert Process(b, tag).sources == b.sources;
    }
  }

  // ----- What the distributor keeps -----

  ghost predicate ClientsSound(received: map<nat, seq<Tag>>, clients: Clients, open: seq<string>) {
    forall c :: c in clients ==> c in received && Bracketed(received[c], clients[c], open)
  }

  ghost predicate KnownSound(b: Boot, flavour: nat) {
    && Sound(b) && OfFlavour(b.sources, flavour)
    && NoEos(b.media)
  }

  ghost predicate Registered(received: map<nat, seq<Tag>>, running: Clients, waiting: Clients) {
    running.Keys !! waiting.Keys && received.Keys == running.Keys + waiting.Keys
  }

  /** Whoever has `open` open and receives the tags has `open'` open. */
  ghost predicate Leads(open: seq<string>, tags: seq<Tag>, open': seq<string>) {
    NoEos(tags) && forall log :: Read(log) == Some(open) ==> Read(log + tags) == Some(open')
  }

  lemma LeadsTwice(open: seq<string>, a: seq<Tag>, open1: seq<string>, b: seq<Tag>, open2: seq<string>)
    requires Leads(open, a, open1) && Leads(open1, b, open2)
    ensures Leads(open, a + b, open2)
  {
    forall log | Read(log) == Some(open) ensures Read(log + (a + b)) == Some(open2) {
      assert Read(log + a) == Some(open1);
      assert (log + a) + b == log + (a + b);
    }
  }

  lemma LeadsClosing(open: seq<string>, sources: seq<Tag>, flavour: nat)
    requires AllStarted(sources) && OfFlavour(sources, flavour)
    ensures Leads(open + Names(sources), Closing(sources, flavour), open)
  {
    forall log | Read(log) == Some(open + Names(sources)) ensures Read(log + Closing(sources, flavour)) == Some(open) {
      ReadClosing(log, open, sources, flavour);
    }
    ClosingSize(sources, flavour);
  }

  lemma LeadsOwn(name: string, flavour: nat)
    ensures Leads([], OwnStart(name, flavour), Own(name)) && Leads(Own(name), OwnEnd(name, flavour), [])
  {
    forall log | Read(log) == Some([]) ensures Read(log + OwnStart(name, flavour)) == Some(Own(name)) {
      assert log + [] == log;
      ReadAppend(log, SourceStarted(name, flavour));
      assert [] + [name] == [name];
    }
    forall log | Read(log) == Some(Own(name)) ensures Read(log + OwnEnd(name, flavour)) == Some([]) {
      assert log + [] == log;
      ReadAppend(log, SourceEnded(name, flavour));
    }
  }

  lemma LeadsNowhere(open: seq<string>, tags: seq<Tag>)
    requires OpensNothing(tags)
    ensures Leads(open, tags, open)
  {
    forall log | Read(log) == Some(open) ensures Read(log + tags) == Some(open) {
      ReadNeutral(log, tags);
    }
  }

  lemma LeadsSources(open: seq<string>, sources: seq<Tag>)
    requires AllStarted(sources)
    ensures Leads(open, sources, open + Names(sources))
  {
    forall log | Read(log) == Some(open) ensures Read(log + sources) == Some(open + Names(sources)) {
      ReadStarts(log, open, sources);
    }
  }

  lemma LeadsOne(open: seq<string>, tag: Tag, open': seq<string>)
    requires ReadOne(open, tag) == Some(open') && !tag.Eos?
    ensures Leads(open, [tag], open')
  {
    forall log | Read(log) == Some(open) ensures Read(log + [tag]) == Some(open') {
      ReadAppend(log, tag);
    }
  }

  /** The headers and media of a snapshot, which open nothing. */
  function HeadersAndMedia(b: Boot): seq<Tag> {
    WithHeaders(b, []) + b.media
  }

  lemma SnapshotParts(b: Boot)
    ensures Snapshot(b) == b.sources + HeadersAndMedia(b)
  {
    SnapshotBehind(b.(sources := []), b.sources);
    assert b.sources + [] == b.sources;
  }

  lemma RegisterOpensNothing(tags: seq<Tag>, register: Option<Tag>)
    requires OpensNothing(tags)
    requires register.Some? ==> register.value.MediaInfo? || register.value.CuePoints? || register.value.Flv?
    ensures OpensNothing(tags + Known(register))
  {
  }

  lemma HeadersOpenNothing(b: Boot)
    requires RegistersSound(b)
    ensures OpensNothing(WithHeaders(b, []))
  {
    RegisterOpensNothing([], b.mediaInfo);
    var t1 := [] + Known(b.mediaInfo);
    RegisterOpensNothing(t1, b.metadata);
    var t2 := t1 + Known(b.metadata);
    RegisterOpensNothing(t2, b.cuePoints);
    var t3 := t2 + Known(b.cuePoints);
    RegisterOpensNothing(t3, b.avc);
    var t4 := t3 + Known(b.avc);
    RegisterOpensNothing(t4, b.aac);
    RegisterOpensNothing(t4 + Known(b.aac), b.moov);
  }

  lemma MediaOpensNothing(b: Boot)
    requires MediaSound(b.keepMedia, b.media) && NoEos(b.media)
    ensures OpensNothing(b.media)
  {
  }

  lemma LeadsHeadersAndMedia(open: seq<string>, b: Boot, flavour: nat)
    requires KnownSound(b, flavour)
    ensures Leads(open, HeadersAndMedia(b), open)
  {
    HeadersOpenNothing(b);
    MediaOpensNothing(b);
    LeadsNowhere(open, WithHeaders(b, []));
    LeadsNowhere(open, b.media);
    LeadsTwice(open, WithHeaders(b, []), open, b.media, open);
  }

  lemma LeadsBetweenMarkers(open: seq<string>, tags: seq<Tag>, open': seq<string>)
    requires Leads(open, tags, open')
    ensures Leads(open, [BootstrapBegin] + tags + [BootstrapEnd], open')
  {
    LeadsNowhere(open, [BootstrapBegin]);
    LeadsTwice(open, [BootstrapBegin], open, tags, open');
    LeadsNowhere(open', [BootstrapEnd]);
    LeadsTwice(open, [BootstrapBegin] + tags, open', [BootstrapEnd], open');
  }

  lemma LeadsSnapshot(open: seq<string>, b: Boot, flavour: nat)
    requires KnownSound(b, flavour)
    ensures Leads(open, [BootstrapBegin] + Snapshot(b) + [BootstrapEnd], open + Names(b.sources))
  {
    var inside := open + Names(b.sources);
    SnapshotParts(b);
    LeadsSources(open, b.sources);
    LeadsHeadersAndMedia(inside, b, flavour);
    LeadsTwice(open, b.sources, inside, HeadersAndMedia(b), inside);
    LeadsBetweenMarkers(open, Snapshot(b), inside);
  }

  lemma LeadsWelcome(name: string, flavour: nat, b: Boot)
    requires KnownSound(b, flavour)
    ensures Leads([], Welcome(name, flavour, b), Own(name) + Names(b.sources))
  {
    LeadsOwn(name, flavour);
    LeadsSnapshot(Own(name), b, flavour);
    LeadsTwice([], OwnStart(name, flavour), Own(name),
               [BootstrapBegin] + Snapshot(b) + [BootstrapEnd], Own(name) + Names(b.sources));
  }

  lemma LeadsFarewell(name: string, flavour: nat, b: Boot)
    requires KnownSound(b, flavour)
    ensures Leads(Own(name) + Names(b.sources), Closing(b.sources, flavour) + OwnEnd(name, flavour), [])
  {
    LeadsOwn(name, flavour);
    LeadsClosing(Own(name), b.sources, flavour);
    LeadsTwice(Own(name) + Names(b.sources), Closing(b.sources, flavour), Own(name), OwnEnd(name, flavour), []);
  }

  // ----- Deliveries to many clients -----

  lemma EndedStays(log: seq<Tag>, more: seq<Tag>)
    requires EndedProperly(log)
    ensures EndedProperly(log + more)
  {
    var e :| 0 <= e < |log| && EndsAt(log, e);
    assert (log + more)[..e] == log[..e] && (log + more)[..e + 1] == log[..e + 1];
    assert EndsAt(log + more, e);
  }

  lemma {:induction false} EosEnds(log: seq<Tag>)
    requires NoEos(log) && Read(log) == Some([])
    ensures EndedProperly(log + [Eos])
  {
    ReadAppend(log, Eos);
    assert (log + [Eos])[..|log|] == log && (log + [Eos])[..|log| + 1] == log + [Eos];
    assert EndsAt(log + [Eos], |log|);
  }

  lemma Delivered(received: map<nat, seq<Tag>>, clients: Clients, open: seq<string>, tags: seq<Tag>,
                  open': seq<string>, targets: set<nat>)
    requires ClientsSound(received, clients, open) && Leads(open, tags, open') && clients.Keys <= targets
    ensures ClientsSound(Deliver(received, targets, tags), clients, open')
  {
    forall c | c in clients ensures Bracketed(received[c] + tags, clients[c], open') {
      if clients[c] {
        EndedStays(received[c], tags);
      }
    }
  }

  lemma NotDelivered(received: map<nat, seq<Tag>>, clients: Clients, open: seq<string>, tags: seq<Tag>,
      targets: set<nat>)
    requires ClientsSound(received, clients, open) && clients.Keys !! targets
    ensures ClientsSound(Deliver(received, targets, tags), clients, open)
  {
  }

  /** A client that is closed in proper form. */
  lemma FarewellEnds(log: seq<Tag>, open: seq<string>, tags: seq<Tag>)
    requires NoEos(log) && Read(log) == Some(open) && Leads(open, tags, [])
    ensures EndedProperly(log + (tags + [Eos]))
  {
    EosEnds(log + tags);
    assert (log + tags) + [Eos] == log + (tags + [Eos]);
  }

  lemma ClosedAll(received: map<nat, seq<Tag>>, clients: Clients, open: seq<string>, tags: seq<Tag>, targets: set<nat>,
                  open': seq<string>)
    requires ClientsSound(received, clients, open) && Leads(open, tags, []) && clients.Keys <= targets
    requires forall c :: c in clients ==> !clients[c]
    ensures ClientsSound(Deliver(received, targets, tags + [Eos]), AllDone(clients), open')
  {
    forall c | c in clients ensures Bracketed(received[c] + (tags + [Eos]), true, open') {
      FarewellEnds(received[c], open, tags);
    }
  }

  lemma ClosedOne(received: map<nat, seq<Tag>>, clients: Clients, open: seq<string>, tags: seq<Tag>, c: nat)
    requires ClientsSound(received, clients, open) && Leads(open, tags, []) && c in clients && !clients[c]
    ensures ClientsSound(Deliver(received, {c}, tags + [Eos]), clients[c := true], open)
  {
    FarewellEnds(received[c], open, tags);
  }

  lemma ClientsUnion(received: map<nat, seq<Tag>>, a: Clients, b: Clients, open: seq<string>)
    requires ClientsSound(received, a, open) && ClientsSound(received, b, open)
    ensures ClientsSound(received, a + b, open)
  {
  }

  lemma DeliverToOneMore(received: map<nat, seq<Tag>>, targets: set<nat>, c: nat, tags: seq<Tag>)
    requires c !in targets
    ensures Deliver(Deliver(received, targets, tags), {c}, tags) == Deliver(received, targets + {c}, tags)
  {
  }

  /** A running client that has not been told the end has the distributor's own
      source open and, inside it, the sources known to the bootstrapper; a waiting
      one has none. Whoever was told the end had none open then. */
  ghost predicate Distributed(received: map<nat, seq<Tag>>, running: Clients, waiting: Clients, name: string,
      flavour: nat, b: Boot)
  {
    && Registered(received, running, waiting) && KnownSound(b, flavour)
    && ClientsSound(received, running, Own(name) + Names(b.sources)) && ClientsSound(received, waiting, [])
  }

  ghost predicate AllEnded(received: map<nat, seq<Tag>>) {
    forall c :: c in received ==> EndedProperly(received[c])
  }

  lemma SwitchKeeps(received: map<nat, seq<Tag>>, running: Clients, waiting: Clients, name: string, flavour: nat,
      b: Boot)
    requires Distributed(received, running, waiting, name, flavour, b)
    ensures Distributed(Deliver(received, running.Keys, Closing(b.sources, flavour)), running, waiting, name, flavour,
        Cleared(b))
  {
    LeadsClosing(Own(name), b.sources, flavour);
    Delivered(received, running, Own(name) + Names(b.sources), Closing(b.sources, flavour), Own(name), running.Keys);
    NotDelivered(received, waiting, [], Closing(b.sources, flavour), running.Keys);
    assert Own(name) + [] == Own(name);
  }

  lemma ResetKeeps(received: map<nat, seq<Tag>>, running: Clients, waiting: Clients, name: string, flavour: nat,
      b: Boot)
    requires Distributed(received, running, waiting, name, flavour, b)
    ensures var r := Deliver(received, running.Keys, Closing(b.sources, flavour) + OwnEnd(name, flavour));
      Distributed(r, map[], waiting + running, name, flavour, Cleared(b))
  {
    var farewell := Closing(b.sources, flavour) + OwnEnd(name, flavour);
    LeadsFarewell(name, flavour, b);
    Delivered(received, running, Own(name) + Names(b.sources), farewell, [], running.Keys);
    NotDelivered(received, waiting, [], farewell, running.Keys);
    ClientsUnion(Deliver(received, running.Keys, farewell), waiting, running, []);
  }

  ghost predicate AllOpen(clients: Clients) {
    forall c :: c in clients ==> !clients[c]
  }

  lemma StillRegistered(received: map<nat, seq<Tag>>, running: Clients, waiting: Clients, targets: set<nat>,
                        tags: seq<Tag>)
    requires Registered(received, running, waiting)
    ensures Registered(Deliver(received, targets, tags), AllDone(running), waiting)
    ensures Registered(Deliver(received, targets, tags), running, AllDone(waiting))
  {
    assert AllDone(running).Keys == running.Keys && AllDone(waiting).Keys == waiting.Keys;
    assert Deliver(received, targets, tags).Keys == received.Keys;
  }

  lemma CloseRunningKeeps(received: map<nat, seq<Tag>>, running: Clients, waiting: Clients,
                          name: string, flavour: nat, b: Boot)
    requires Distributed(received, running, waiting, name, flavour, b) && AllOpen(running)
    ensures var r := Deliver(received, running.Keys, Closing(b.sources, flavour) + OwnEnd(name, flavour) + [Eos]);
      Distributed(r, AllDone(running), waiting, name, flavour, b)
  {
    var farewell, open := Closing(b.sources, flavour) + OwnEnd(name, flavour), Own(name) + Names(b.sources);
    LeadsFarewell(name, flavour, b);
    StillRegistered(received, running, waiting, running.Keys, farewell + [Eos]);
    ClosedAll(received, running, open, farewell, running.Keys, open);
    NotDelivered(received, waiting, [], farewell + [Eos], running.Keys);
  }

  lemma CloseWaitingKeeps(received: map<nat, seq<Tag>>, running: Clients, waiting: Clients,
                          name: string, flavour: nat, b: Boot)
    requires Distributed(received, running, waiting, name, flavour, b) && AllOpen(waiting)
    ensures Distributed(Deliver(received, waiting.Keys, [Eos]), running, AllDone(waiting), name, flavour, b)
  {
    assert [] + [Eos] == [Eos];
    LeadsNowhere([], []);
    StillRegistered(received, running, waiting, waiting.Keys, [Eos]);
    ClosedAll(received, waiting, [], [], waiting.Keys, []);
    NotDelivered(received, running, Own(name) + Names(b.sources), [Eos], waiting.Keys);
  }

  lemma CloseRunningOneKeeps(received: map<nat, seq<Tag>>, running: Clients, waiting: Clients,
                             name: string, flavour: nat, b: Boot, c: nat)
    requires Distributed(received, running, waiting, name, flavour, b) && c in running && !running[c]
    ensures var r := Deliver(received, {c}, Closing(b.sources, flavour) + OwnEnd(name, flavour) + [Eos]);
      Distributed(r, running[c := true], waiting, name, flavour, b) && EndedProperly(r[c])
  {
    var farewell, open := Closing(b.sources, flavour) + OwnEnd(name, flavour), Own(name) + Names(b.sources);
    LeadsFarewell(name, flavour, b);
    ClosedOne(received, running, open, farewell, c);
    NotDelivered(received, waiting, [], farewell + [Eos], {c});
  }

  lemma CloseWaitingOneKeeps(received: map<nat, seq<Tag>>, running: Clients, waiting: Clients,
                             name: string, flavour: nat, b: Boot, c: nat)
    requires Distributed(received, running, waiting, name, flavour, b) && c in waiting && !waiting[c]
    ensures var r := Deliver(received, {c}, [Eos]);
      Distributed(r, running, waiting[c := true], name, flavour, b) && EndedProperly(r[c])
  {
    assert [] + [Eos] == [Eos];
    LeadsNowhere([], []);
    ClosedOne(received, waiting, [], [], c);
    NotDelivered(received, running, Own(name) + Names(b.sources), [Eos], {c});
  }

  lemma DoneEnded(received: map<nat, seq<Tag>>, running: Clients, waiting: Clients, name: string, flavour: nat, b: Boot)
    requires Distributed(received, AllDone(running), AllDone(waiting), name, flavour, b)
    ensures AllEnded(received)
  {
    forall c | c in received ensures EndedProperly(received[c]) {
      if c in AllDone(running) {
        assert Bracketed(received[c], AllDone(running)[c], Own(name) + Names(b.sources));
      } else {
        assert Bracketed(received[c], AllDone(waiting)[c], []);
      }
    }
  }

  /** What may come from upstream: no Eos, and only brackets of the distributor's
      flavour that match. */
  predicate FromUpstream(tag: Tag, sources: seq<Tag>, flavour: nat) {
    && !tag.Eos?
    && (tag.SourceStarted? ==> tag.flavour == flavour)
    && (tag.SourceEnded? ==> sources != [] && sources[|sources| - 1] == SourceStarted(tag.name, flavour))
  }

  lemma SourcesStayOfFlavour(b: Boot, flavour: nat, tag: Tag)
    requires AllStarted(b.sources) && OfFlavour(b.sources, flavour) && FromUpstream(tag, b.sources, flavour)
    ensures AllStarted(Process(b, tag).sources) && OfFlavour(Process(b, tag).sources, flavour)
  {
  }

  lemma MediaStaysOpen(b: Boot, tag: Tag)
    requires NoEos(b.media) && !tag.Eos?
    ensures NoEos(Process(b, tag).media)
  {
  }

  lemma KnownStaysSound(b: Boot, flavour: nat, tag: Tag)
    requires KnownSound(b, flavour) && FromUpstream(tag, b.sources, flavour) && !IsMarker(tag)
    ensures KnownSound(Process(b, tag), flavour)
  {
    ApplyKeepsSound(b, ProcessOp(tag));
    SourcesStayOfFlavour(b, flavour, tag);
    MediaStaysOpen(b, tag);
  }

  lemma WelcomeKeeps(received: map<nat, seq<Tag>>, running: Clients, waiting: Clients,
                     name: string, flavour: nat, b: Boot)
    requires Distributed(received, running, waiting, name, flavour, b)
    ensures Distributed(Deliver(received, waiting.Keys, Welcome(name, flavour, b)), running + waiting, map[], name,
        flavour, b)
  {
    var open, r := Own(name) + Names(b.sources), Deliver(received, waiting.Keys, Welcome(name, flavour, b));
    LeadsWelcome(name, flavour, b);
    Delivered(received, waiting, [], Welcome(name, flavour, b), open, waiting.Keys);
    NotDelivered(received, running, open, Welcome(name, flavour, b), waiting.Keys);
    ClientsUnion(r, running, waiting, open);
  }

  lemma TagKeeps(received: map<nat, seq<Tag>>, running: Clients, name: string, flavour: nat, b: Boot, tag: Tag)
    requires Distributed(received, running, map[], name, flavour, b)
    requires FromUpstream(tag, b.sources, flavour) && !IsMarker(tag)
    ensures Distributed(Deliver(received, running.Keys, [tag]), running, map[], name, flavour, Process(b, tag))
  {
    TagLeads(name, b, flavour, tag);
    KnownStaysSound(b, flavour, tag);
    Delivered(received, running, Own(name) + Names(b.sources), [tag], Own(name) + Names(Process(b, tag).sources),
        running.Keys);
  }

  lemma TagReads(own: seq<string>, b: Boot, flavour: nat, tag: Tag)
    requires AllStarted(b.sources) && FromUpstream(tag, b.sources, flavour) && !IsMarker(tag)
    ensures AllStarted(Process(b, tag).sources)
    ensures ReadOne(own + Names(b.sources), tag) == Some(own + Names(Process(b, tag).sources))
  {
    if tag.SourceStarted? {
      StartStep(own, b.sources, tag);
    } else if tag.SourceEnded? {
      EndStepIff(own, b.sources, tag);
    } else {
      assert Process(b, tag).sources == b.sources;
    }
  }

  lemma TagLeads(name: string, b: Boot, flavour: nat, tag: Tag)
    requires AllStarted(b.sources) && FromUpstream(tag, b.sources, flavour) && !IsMarker(tag)
    ensures AllStarted(Process(b, tag).sources)
    ensures Leads(Own(name) + Names(b.sources), [tag], Own(name) + Names(Process(b, tag).sources))
  {
    TagReads(Own(name), b, flavour, tag);
    LeadsOne(Own(name) + Names(b.sources), tag, Own(name) + Names(Process(b, tag).sources));
  }

  lemma NoneLeft(clients: Clients, left: set<nat>)
    requires left <= clients.Keys && clients - (clients.Keys - left) == map[]
    ensures left == {} && clients - left == clients && clients.Keys - left == clients.Keys
  {
    assert (clients - (clients.Keys - left)).Keys == left;
  }

  lemma MoveOne(base: Clients, clients: Clients, left: set<nat>, c: nat)
    requires c in left && left <= clients.Keys
    ensures (base + (clients - left))[c := clients[c]] == base + (clients - (left - {c}))
  {
  }

  /** What one client gets when a tag is distributed: if it was waiting, first all that a
      late client must be told, between the markers; then the tag. */
  lemma DistributedMeans(received: map<nat, seq<Tag>>, running: Clients, waiting: Clients, name: string, flavour: nat,
                         b: Boot, tag: Tag, c: nat)
    requires Registered(received, running, waiting) && c in received
    ensures var welcomed := Deliver(received, waiting.Keys, Welcome(name, flavour, b));
      Deliver(welcomed, (running + waiting).Keys, [tag])[c] ==
        received[c] +
        (if c !in waiting then []
         else (if name == "" then [] else [SourceStarted(name, flavour)]) + [BootstrapBegin] + b.sources
              + Known(b.mediaInfo) + Known(b.metadata) + Known(b.cuePoints)
              + Known(b.avc) + Known(b.aac) + Known(b.moov) + b.media + [BootstrapEnd]) +
        [tag]
  {
    if c in waiting {
      WelcomeInFull(name, flavour, b);
    }
  }

  lemma WelcomeInFull(name: string, flavour: nat, b: Boot)
    ensures Welcome(name, flavour, b) ==
      (if name == "" then [] else [SourceStarted(name, flavour)]) + [BootstrapBegin] + b.sources
      + Known(b.mediaInfo) + Known(b.metadata) + Known(b.cuePoints)
      + Known(b.avc) + Known(b.aac) + Known(b.moov) + b.media + [BootstrapEnd]
  {
    var before := OwnStart(name, flavour) + [BootstrapBegin];
    SnapshotBehind(b, before);
    assert WithHeaders(b, before + b.sources) + b.media == before + Snapshot(b);
    assert Welcome(name, flavour, b) == (before + Snapshot(b)) + [BootstrapEnd];
  }

  class TagDistributor {
    const flavour: nat
    const name: string
    const bootstrapper: Bootstrapper
    var running: Clients
    var toBootstrap: Clients
    // what each client's callback has been run with since it was added
    var received: map<nat, seq<Tag>>

    /** What every call needs and keeps, whatever comes from upstream. */
    ghost predicate Consistent()
      reads this, bootstrapper
    {
      Registered(received, running, toBootstrap) && AllStarted(bootstrapper.sourceStartedTags)
    }

    /** What holds besides as long as the brackets from upstream match. */
    ghost predicate Valid()
      reads this, bootstrapper
    {
      Distributed(received, running, toBootstrap, name, flavour, bootstrapper.State())
    }

    constructor (flavour: nat, name: string, bootstrapMedia: bool)
      ensures Consistent() && Valid() && received == map[] && fresh(bootstrapper)
      ensures this.flavour == flavour && this.name == name && bootstrapper.State() == Empty(bootstrapMedia)
    {
      this.flavour, this.name := flavour, name;
      running, toBootstrap, received := map[], map[], map[];
      bootstrapper := new Bootstrapper(bootstrapMedia);
    }

    method AddCallback(c: nat)
      requires Consistent() && c !in received
      modifies this
      ensures Consistent() && (old(Valid()) ==> Valid())
      ensures running == old(running) && toBootstrap == old(toBootstrap)[c := false]
      ensures received == old(received)[c := []]
    {
      toBootstrap := toBootstrap[c := false];
      received := received[c := []];
    }

    method RemoveCallback(c: nat)
      requires Consistent() && c in received
      modifies this
      ensures Consistent() && (old(Valid()) ==> Valid())
      ensures running == old(running) - {c} && toBootstrap == old(toBootstrap) - {c}
      ensures received == old(received) - {c}
    {
      if c in running {
        running := running - {c};
      } else {
        toBootstrap := toBootstrap - {c};
      }
      received := received - {c};
    }

    /** Runs the callbacks of some clients with a series of tags. */
    method Send(clients: set<nat>, tags: seq<Tag>)
      requires clients <= received.Keys
      modifies `received
      ensures received == Deliver(old(received), clients, tags)
    {
      var left := clients;
      while left != {}
        invariant left <= clients && received == Deliver(old(received), clients - left, tags)
        decreases left
      {
        var c :| c in left;
        left := left - {c};
        received := received[c := received[c] + tags];
      }
      assert clients - {} == clients;
    }

    /** Ends the open sources of all running clients and forgets what is known. */
    method Switch()
      requires Consistent()
      modifies this, bootstrapper
      ensures Consistent() && (old(Valid()) ==> Valid())
      ensures running == old(running) && toBootstrap == old(toBootstrap)
      ensures received == Deliver(old(received), running.Keys, Closing(old(bootstrapper.sourceStartedTags), flavour))
      ensures bootstrapper.State() == Cleared(old(bootstrapper.State()))
    {
      if Valid() {
        SwitchKeeps(received, running, toBootstrap, name, flavour, bootstrapper.State());
      }
      var ended := bootstrapper.PlayAtEnd(flavour);
      Send(running.Keys, ended);
      bootstrapper.ClearBootstrap();
    }

    /** Sends the ends of the sources that the running clients have open. */
    method SendFarewell(last: seq<Tag>)
      requires Consistent()
      modifies `received
      ensures received == Deliver(old(received), running.Keys,
                                  Closing(bootstrapper.sourceStartedTags, flavour) + OwnEnd(name, flavour) + last)
    {
      var ended := bootstrapper.PlayAtEnd(flavour);
      var own := if name == "" then [] else [SourceEnded(name, flavour)];
      Send(running.Keys, ended + own + last);
    }

    method MoveToWaiting()
      modifies `running, `toBootstrap
      ensures running == map[] && toBootstrap == old(toBootstrap) + old(running)
    {
      ghost var base, clients, left := toBootstrap, running, running.Keys;
      while running != map[]
        invariant left <= clients.Keys && running == clients - (clients.Keys - left)
        invariant toBootstrap == base + (clients - left)
        decreases left
      {
        var c :| c in running;
        MoveOne(base, clients, left, c);
        toBootstrap := toBootstrap[c := running[c]];
        running := running - {c};
        left := left - {c};
      }
      NoneLeft(clients, left);
    }

    /** Ends also the distributor's own source, and lets the clients wait to be
        bootstrapped again. */
    method Reset()
      requires Consistent()
      modifies this, bootstrapper
      ensures Consistent() && (old(Valid()) ==> Valid())
      ensures running == map[] && toBootstrap == old(toBootstrap) + old(running)
      ensures received == Deliver(old(received), old(running).Keys,
                                  Closing(old(bootstrapper.sourceStartedTags), flavour) + OwnEnd(name, flavour))
      ensures bootstrapper.State() == Cleared(old(bootstrapper.State()))
    {
      if Valid() {
        ResetKeeps(received, running, toBootstrap, name, flavour, bootstrapper.State());
      }
      SendFarewell([]);
      assert Closing(bootstrapper.sourceStartedTags, flavour) + OwnEnd(name, flavour) + [] ==
             Closing(bootstrapper.sourceStartedTags, flavour) + OwnEnd(name, flavour);
      MoveToWaiting();
      bootstrapper.ClearBootstrap();
    }

    method CloseOneRunning(c: nat)
      requires Consistent() && c in running && !running[c]
      modifies `received, `running
      ensures Consistent() && running == old(running)[c := true] && c in received
      ensures old(Valid()) ==> Valid() && EndedProperly(received[c])
      ensures received == Deliver(old(received), {c},
                                  Closing(bootstrapper.sourceStartedTags, flavour) + OwnEnd(name, flavour) + [Eos])
    {
      if Valid() {
        CloseRunningOneKeeps(received, running, toBootstrap, name, flavour, bootstrapper.State(), c);
      }
      var ended := bootstrapper.PlayAtEnd(flavour);
      var own := if name == "" then [] else [SourceEnded(name, flavour)];
      Send({c}, ended + own + [Eos]);
      running := running[c := true];
    }

    method CloseOneWaiting(c: nat)
      requires Consistent() && c in toBootstrap && !toBootstrap[c]
      modifies `received, `toBootstrap
      ensures Consistent() && toBootstrap == old(toBootstrap)[c := true] && c in received
      ensures old(Valid()) ==> Valid() && EndedProperly(received[c])
      ensures received == Deliver(old(received), {c}, [Eos])
    {
      if Valid() {
        CloseWaitingOneKeeps(received, running, toBootstrap, name, flavour, bootstrapper.State(), c);
      }
      Send({c}, [Eos]);
      toBootstrap := toBootstrap[c := true];
    }

    /** Tells one client the end. */
    method CloseCallback(c: nat)
      requires Consistent() && c in received
      requires c in running ==> !running[c]
      requires c in toBootstrap ==> !toBootstrap[c]
      modifies `received, `running, `toBootstrap
      ensures Consistent() && c in received && (old(Valid()) ==> Valid() && EndedProperly(received[c]))
      ensures running == (if c in old(running) then old(running)[c := true] else old(running))
      ensures toBootstrap == (if c in old(toBootstrap) then old(toBootstrap)[c := true] else old(toBootstrap))
      ensures var ends := Closing(bootstrapper.sourceStartedTags, flavour) + OwnEnd(name, flavour) + [Eos];
        received == Deliver(old(received), {c}, if c in old(running) then ends else [Eos])
    {
      if c in running {
        CloseOneRunning(c);
      } else {
        CloseOneWaiting(c);
      }
    }

    method CloseRunning()
      requires Consistent() && AllOpen(running)
      modifies `received, `running
      ensures Consistent() && (old(Valid()) ==> Valid())
      ensures running == AllDone(old(running))
      ensures received == Deliver(old(received), old(running).Keys,
                                  Closing(bootstrapper.sourceStartedTags, flavour) + OwnEnd(name, flavour) + [Eos])
    {
      if Valid() {
        CloseRunningKeeps(received, running, toBootstrap, name, flavour, bootstrapper.State());
      }
      SendFarewell([Eos]);
      running := AllDone(running);
    }

    method CloseWaiting()
      requires Consistent() && AllOpen(toBootstrap)
      modifies `received, `toBootstrap
      ensures Consistent() && (old(Valid()) ==> Valid())
      ensures toBootstrap == AllDone(old(toBootstrap))
      ensures received == Deliver(old(received), old(toBootstrap).Keys, [Eos])
    {
      if Valid() {
        CloseWaitingKeeps(received, running, toBootstrap, name, flavour, bootstrapper.State());
      }
      Send(toBootstrap.Keys, [Eos]);
      toBootstrap := AllDone(toBootstrap);
    }

    /** Tells all clients the end, the running ones also the ends of their sources. */
    method CloseAllCallbacks()
      requires Consistent() && AllOpen(running) && AllOpen(toBootstrap)
      modifies `received, `running, `toBootstrap
      ensures Consistent() && (old(Valid()) ==> Valid() && AllEnded(received))
      ensures running == AllDone(old(running)) && toBootstrap == AllDone(old(toBootstrap))
      ensures var farewell := Closing(bootstrapper.sourceStartedTags, flavour) + OwnEnd(name, flavour) + [Eos];
        received == Deliver(Deliver(old(received), old(running).Keys, farewell), old(toBootstrap).Keys, [Eos])
    {
      CloseRunning();
      CloseWaiting();
      if Valid() {
        DoneEnded(received, old(running), old(toBootstrap), name, flavour, bootstrapper.State());
      }
    }

    method BootstrapOne(c: nat)
      requires c in toBootstrap && c in received
      modifies this
      ensures running == old(running)[c := old(toBootstrap)[c]] && toBootstrap == old(toBootstrap) - {c}
      ensures received == Deliver(old(received), {c}, Welcome(name, flavour, bootstrapper.State()))
    {
      running := running[c := toBootstrap[c]];
      toBootstrap := toBootstrap - {c};
      var welcome := if name == "" then [] else [SourceStarted(name, flavour)];
      var played := bootstrapper.PlayAtBegin();
      Send({c}, welcome + played);
    }

    /** All but those left of the waiting clients have joined the running ones. */
    ghost predicate Joined(r: map<nat, seq<Tag>>, base: Clients, clients: Clients, left: set<nat>)
      reads this, bootstrapper
    {
      && left <= clients.Keys && toBootstrap == clients - (clients.Keys - left)
      && running == base + (clients - left)
      && received == Deliver(r, clients.Keys - left, Welcome(name, flavour, bootstrapper.State()))
    }

    method BootstrapNext(c: nat, ghost r: map<nat, seq<Tag>>, ghost base: Clients, ghost clients: Clients,
        ghost left: set<nat>)
      requires Joined(r, base, clients, left) && c in left && c in r
      modifies this
      ensures Joined(r, base, clients, left - {c})
    {
      DeliverToOneMore(r, clients.Keys - left, c, Welcome(name, flavour, bootstrapper.State()));
      MoveOne(base, clients, left, c);
      assert clients.Keys - left + {c} == clients.Keys - (left - {c});
      BootstrapOne(c);
    }

    /** Bootstraps the clients that wait. */
    method BootstrapWaiting()
      requires Registered(received, running, toBootstrap)
      modifies this
      ensures running == old(running) + old(toBootstrap) && toBootstrap == map[]
      ensures received == Deliver(old(received), old(toBootstrap).Keys, Welcome(name, flavour, bootstrapper.State()))
    {
      ghost var r, base, clients, left := received, running, toBootstrap, toBootstrap.Keys;
      while toBootstrap != map[]
        invariant Joined(r, base, clients, left)
        decreases left
      {
        var c :| c in toBootstrap;
        BootstrapNext(c, r, base, clients, left);
        left := left - {c};
      }
      NoneLeft(clients, left);
    }

    /** Passes a tag on to all clients, after the waiting ones have been told what
        came before it. The markers of an upstream bootstrap are dropped. */
    method DistributeTag(tag: Tag)
      requires Consistent()
      modifies this, bootstrapper
      ensures Consistent()
      ensures old(Valid()) && FromUpstream(tag, old(bootstrapper.sourceStartedTags), flavour) ==> Valid()
      ensures IsMarker(tag) ==> running == old(running) && toBootstrap == old(toBootstrap) && received == old(received)
      ensures IsMarker(tag) ==> bootstrapper.State() == old(bootstrapper.State())
      ensures !IsMarker(tag) ==> running == old(running) + old(toBootstrap) && toBootstrap == map[]
      ensures !IsMarker(tag) ==> bootstrapper.State() == Process(old(bootstrapper.State()), tag)
      ensures !IsMarker(tag) ==>
        (var welcomed := Deliver(old(received), old(toBootstrap).Keys,
            Welcome(name, flavour, old(bootstrapper.State())));
         received == Deliver(welcomed, running.Keys, [tag]))
    {
      if IsMarker(tag) {
        return;
      }
      ghost var keeps := Valid() && FromUpstream(tag, bootstrapper.sourceStartedTags, flavour);
      if keeps {
        WelcomeKeeps(received, running, toBootstrap, name, flavour, bootstrapper.State());
      }
      BootstrapWaiting();
      if keeps {
        TagKeeps(received, running, name, flavour, bootstrapper.State(), tag);
      }
      SourcesKept(bootstrapper.State(), tag);
      bootstrapper.ProcessTag(tag);
      Send(running.Keys, [tag]);
    }
  }
}
