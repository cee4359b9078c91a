/** What the browser runner records, within budgets (src/skill_native/browser_runner.py,
    `_ExecutionState`, `_ArtifactStore`, and the decision at the end of `execute_browser`). */
module BrowserRecorder {
  import opened Wrappers

  datatype Note = Note(kind: string, details: string)

  datatype Event = Event(sequence: nat, kind: string, details: string)

  datatype Message = Message(kind: string, text: string)

  datatype Budgets = Budgets(events: nat, network: nat, consoleBytes: nat, pages: nat)

  const EVENTS_EXCEEDED := "event budget exceeded"
  const NETWORK_EXCEEDED := "network event budget exceeded"
  const CONSOLE_EXCEEDED := "console byte budget exceeded"
  const PAGES_EXCEEDED := "page budget exceeded"

  function Bytes(messages: seq<Message>, size: string -> nat): nat {
    if messages == [] then 0
    else Bytes(messages[..|messages| - 1], size) + size(messages[|messages| - 1].text)
  }

  /** What is kept of the console: each message that still fits when it comes, so a short one may
      be kept after a long one was dropped. */
  function Kept(offered: seq<Message>, budget: nat, size: string -> nat): (r: seq<Message>)
    ensures |r| <= |offered| && Bytes(r, size) <= budget
  {
    if offered == [] then []
    else
      var before, last := Kept(offered[..|offered| - 1], budget, size), offered[|offered| - 1];
      assert (before + [last])[..|before|] == before;
      if Bytes(before, size) + size(last.text) > budget then before else before + [last]
  }

  lemma {:induction false} KeptAll(offered: seq<Message>, budget: nat, size: string -> nat)
    ensures Kept(offered, budget, size) == offered <==> Bytes(offered, size) <= budget
    ensures |Kept(offered, budget, size)| == |offered| <==> Bytes(offered, size) <= budget
    decreases |offered|
  {
    if offered != [] {
      var rest := offered[..|offered| - 1];
      KeptAll(rest, budget, size);
      assert offered == rest + [offered[|offered| - 1]];
      KeptSnoc(rest, offered[|offered| - 1], budget, size);
      BytesSnoc(rest, offered[|offered| - 1], size);
      hide Kept, Bytes;
    }
  }

  lemma BytesSnoc(messages: seq<Message>, m: Message, size: string -> nat)
    ensures Bytes(messages + [m], size) == Bytes(messages, size) + size(m.text)
  {
    assert (messages + [m])[..|messages|] == messages;
  }

  lemma KeptSnoc(offered: seq<Message>, m: Message, budget: nat, size: string -> nat)
    ensures var before := Kept(offered, budget, size);
            Kept(offered + [m], budget, size) ==
            if Bytes(before, size) + size(m.text) > budget then before else before + [m]
  {
    assert (offered + [m])[..|offered|] == offered;
  }

  class Recorder {
    const budgets: Budgets
    const size: string -> nat
    var events: seq<Event>
    var network: seq<string>
    var console: seq<Message>
    var consoleBytes: nat
    var violations: seq<string>
    var seenPages: nat
    var assertions: map<string, bool>
    var eventOverflow: bool
    var networkOverflow: bool
    var consoleOverflow: bool
    /** Everything the recorder was given, kept or not. */
    ghost var offeredEvents: seq<Note>
    ghost var offeredNetwork: seq<string>
    ghost var offeredConsole: seq<Message>

    /** Events and network events are the first ones offered, as many as the budget has room for,
        numbered by position; of the console, what fits is kept and its bytes are counted; a flag
        is up, with its violation, exactly when something was dropped. */
    ghost predicate Valid()
      reads this
    {
      && |events| == Min(|offeredEvents|, budgets.events)
      && (forall i :: 0 <= i < |events| ==> events[i] == Event(i, offeredEvents[i].kind, offeredEvents[i].details))
      && network == offeredNetwork[..Min(|offeredNetwork|, budgets.network)]
      && console == Kept(offeredConsole, budgets.consoleBytes, size)
      && consoleBytes == Bytes(console, size)
      && (eventOverflow <==> |events| < |offeredEvents|)
      && (networkOverflow <==> |network| < |offeredNetwork|)
      && (consoleOverflow <==> |console| < |offeredConsole|)
      && (eventOverflow ==> EVENTS_EXCEEDED in violations)
      && (networkOverflow ==> NETWORK_EXCEEDED in violations)
      && (consoleOverflow ==> CONSOLE_EXCEEDED in violations)
    }

    /** Nothing was dropped: what is stored is all that was offered. */
    ghost predicate Complete()
      reads this
    {
      && |events| == |offeredEvents| && |offeredEvents| <= budgets.events
      && network == offeredNetwork && |offeredNetwork| <= budgets.network
      && console == offeredConsole && Bytes(offeredConsole, size) <= budgets.consoleBytes
    }

    constructor (budgets: Budgets, size: string -> nat)
      ensures Valid() && this.budgets == budgets && this.size == size
      ensures offeredEvents == [] && offeredNetwork == [] && offeredConsole == [] && violations == []
      ensures seenPages == 0 && assertions == map[]
    {
      this.budgets, this.size := budgets, size;
      events, network, console, consoleBytes, violations, seenPages, assertions := [], [], [], 0, [], 0, map[];
      eventOverflow, networkOverflow, consoleOverflow := false, false, false;
      offeredEvents, offeredNetwork, offeredConsole := [], [], [];
    }

    method AddEvent(kind: string, details: string)
      requires Valid()
      modifies `events, `violations, `eventOverflow, `offeredEvents
      ensures Valid() && offeredEvents == old(offeredEvents) + [Note(kind, details)]
      ensures violations == if |old(events)| >= budgets.events && !old(eventOverflow)
                            then old(violations) + [EVENTS_EXCEEDED] else old(violations)
    {
      hide Kept, Bytes;
      offeredEvents := offeredEvents + [Note(kind, details)];
      if |events| >= budgets.events {
        if !eventOverflow {
          violations := violations + [EVENTS_EXCEEDED];
          eventOverflow := true;
        }
        return;
      }
      events := events + [Event(|events|, kind, details)];
    }

    method AddNetwork(value: string)
      requires Valid()
      modifies `network, `violations, `networkOverflow, `offeredNetwork
      ensures Valid() && offeredNetwork == old(offeredNetwork) + [value]
      ensures violations == if |old(network)| >= budgets.network && !old(networkOverflow)
                            then old(violations) + [NETWORK_EXCEEDED] else old(violations)
    {
      hide Kept, Bytes;
      offeredNetwork := offeredNetwork + [value];
      if |network| >= budgets.network {
        if !networkOverflow {
          violations := violations + [NETWORK_EXCEEDED];
          networkOverflow := true;
        }
        return;
      }
      network := network + [value];
    }

    method AddConsole(kind: string, text: string)
      requires Valid()
      modifies `console, `consoleBytes, `violations, `consoleOverflow, `offeredConsole
      ensures Valid() && offeredConsole == old(offeredConsole) + [Message(kind, text)]
      ensures violations == if old(consoleBytes) + size(text) > budgets.consoleBytes && !old(consoleOverflow)
                            then old(violations) + [CONSOLE_EXCEEDED] else old(violations)
    {
      var m := Message(kind, text);
      KeptSnoc(offeredConsole, m, budgets.consoleBytes, size);
      BytesSnoc(console, m, size);
      hide Kept, Bytes;
      offeredConsole := offeredConsole + [m];
      if consoleBytes + size(text) > budgets.consoleBytes {
        if !consoleOverflow {
          violations := violations + [CONSOLE_EXCEEDED];
          consoleOverflow := true;
        }
        return;
      }
      consoleBytes := consoleBytes + size(text);
      console := console + [m];
    }

    method AddViolation(value: string)
      requires Valid()
      modifies `events, `violations, `eventOverflow, `offeredEvents
      ensures Valid() && offeredEvents == old(offeredEvents) + [Note("policy_violation", value)]
      ensures var listed := if value in old(violations) then old(violations) else old(violations) + [value];
              violations == if |old(events)| >= budgets.events && !old(eventOverflow)
                            then listed + [EVENTS_EXCEEDED] else listed
    {
      hide Kept, Bytes;
      if value !in violations {
        violations := violations + [value];
      }
      AddEvent("policy_violation", value);
    }

    /** The outcome of an action, under an id that names its position and kind. */
    method RecordAction(id: string, passed: bool, details: string)
      requires Valid()
      modifies `assertions, `events, `violations, `eventOverflow, `offeredEvents
      ensures Valid() && assertions == old(assertions)[id := passed]
      ensures offeredEvents == old(offeredEvents) + [Note("action", details)]
      ensures violations == if |old(events)| >= budgets.events && !old(eventOverflow)
                            then old(violations) + [EVENTS_EXCEEDED] else old(violations)
    {
      hide Kept, Bytes;
      assertions := assertions[id := passed];
      AddEvent("action", details);
    }

    method OpenPage()
      requires Valid()
      modifies `seenPages, `events, `violations, `eventOverflow, `offeredEvents
      ensures Valid() && seenPages == old(seenPages) + 1 && old(violations) <= violations
      ensures |offeredEvents| == |old(offeredEvents)| + 1
    {
      hide Kept, Bytes;
      seenPages := seenPages + 1;
      AddEvent("page_opened", "");
    }

    /** The decision at the end of a run. Of the nine policy checks those on origins, side effects
        and the event, network and console budgets say no more than that there is no violation,
        and the one on the artifact budget no more than that there is an artifact store. A run
        that passes dropped nothing. */
    method Decide(driverMatches: bool, failed: bool, store: Option<ArtifactStore>) returns (passed: bool)
      requires Valid() && (store.Some? ==> store.value.Valid())
      modifies `events, `violations, `eventOverflow, `offeredEvents
      ensures Valid()
      ensures passed <==>
                && !failed && old(violations) == [] && driverMatches && seenPages <= budgets.pages && store.Some?
                && assertions != map[] && forall id :: id in assertions ==> assertions[id]
      ensures passed ==> Complete()
    {
      hide Kept, Bytes;
      var checks :=
        && driverMatches
        && !(exists i :: 0 <= i < |violations|
                         && ("unexpected origin" <= violations[i] || "final URL origin" <= violations[i]))
        && seenPages <= budgets.pages && !eventOverflow && !networkOverflow && !consoleOverflow
        && store.Some? && store.value.totalBytes <= store.value.maxBytes
        && !(exists i :: 0 <= i < |violations|
                         && violations[i] in {"unexpected popup", "unexpected dialog", "unexpected download"})
        && assertions != map[] && forall id :: id in assertions ==> assertions[id];
      if seenPages > budgets.pages {
        AddViolation(PAGES_EXCEEDED);
      }
      passed := !failed && violations == [] && checks;
      KeptAll(offeredConsole, budgets.consoleBytes, size);
    }
  }

  // ------------------------------------------------------------------- the artifacts

  datatype Artifact = Artifact(kind: string, path: string, bytes: nat)

  function Total(artifacts: seq<Artifact>): nat {
    if artifacts == [] then 0 else Total(artifacts[..|artifacts| - 1]) + artifacts[|artifacts| - 1].bytes
  }

  lemma TotalSnoc(artifacts: seq<Artifact>, a: Artifact)
    ensures Total(artifacts + [a]) == Total(artifacts) + a.bytes
  {
    assert (artifacts + [a])[..|artifacts|] == artifacts;
  }

  class ArtifactStore {
    const maxBytes: nat
    const maxDownloadBytes: nat
    var totalBytes: nat
    var artifacts: seq<Artifact>

    ghost predicate Valid()
      reads this
    {
      totalBytes == Total(artifacts) <= maxBytes
    }

    constructor (maxBytes: nat, maxDownloadBytes: nat)
      ensures Valid() && artifacts == [] && this.maxBytes == maxBytes && this.maxDownloadBytes == maxDownloadBytes
    {
      this.maxBytes, this.maxDownloadBytes, totalBytes, artifacts := maxBytes, maxDownloadBytes, 0, [];
    }

    /** `_register`, for a file of the given size. */
    method Register(kind: string, path: string, size: nat) returns (ok: bool)
      requires Valid()
      modifies this
      ensures Valid()
      ensures ok <==> Total(old(artifacts)) + size <= maxBytes
      ensures artifacts == if ok then old(artifacts) + [Artifact(kind, path, size)] else old(artifacts)
    {
      ok := totalBytes + size <= maxBytes;
      if ok {
        TotalSnoc(artifacts, Artifact(kind, path, size));
        totalBytes := totalBytes + size;
        artifacts := artifacts + [Artifact(kind, path, size)];
      }
    }

    method WriteText(kind: string, path: string, size: nat, limit: nat) returns (ok: bool)
      requires Valid()
      modifies this
      ensures Valid()
      ensures ok <==> size <= limit && Total(old(artifacts)) + size <= maxBytes
      ensures artifacts == if ok then old(artifacts) + [Artifact(kind, path, size)] else old(artifacts)
    {
      if size > limit {
        return false;
      }
      ok := Register(kind, path, size);
    }

    /** A download over its own limit is refused only after it has been registered, so it stays
        among the artifacts of the failed run. */
    method Download(path: string, size: nat) returns (ok: bool)
      requires Valid()
      modifies this
      ensures Valid()
      ensures ok <==> size <= maxDownloadBytes && Total(old(artifacts)) + size <= maxBytes
      ensures artifacts == if Total(old(artifacts)) + size <= maxBytes
                           then old(artifacts) + [Artifact("download", path, size)] else old(artifacts)
    {
      ok := Register("download", path, size);
      if ok && size > maxDownloadBytes {
        ok := false;
      }
    }
  }
}
