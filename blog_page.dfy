/** The script of the blog pages (scripts/main.js). On load, `init` looks at
    the path: the index page hides its `.hide-on-index-page` blocks, any
    other page calls `setupCommentLoader`. That function makes a closure
    holding the flag `commentSectionAdded` and returns `observeBottomMarker`,
    which starts an `IntersectionObserver` on the element `#bottom-marker`;
    its callback appends the utterances comment widget's script to the body
    the first time the browser reports the marker intersecting the viewport,
    and then stops observing it.
    Note that `init` drops the function `setupCommentLoader` returns without
    calling it.

    The browser is not modelled: the observer's callback is a method that
    the environment calls with any entries it likes, and the observers are
    represented by the set of document nodes each one watches. */
module BlogPage {

  datatype Option<T> = None | Some(value: T)

  /** An element made by `document.createElement`: its tag and the values
      of its attributes, by name. */
  datatype Element = Element(tag: string, attributes: map<string, string>)

  /** An element of the page: its `id` (`""` when it has none), its
      classes and its inline `style.display`. */
  datatype Node = Node(id: string, classes: set<string>, display: string)

  /** An `IntersectionObserverEntry`: the browser's `isIntersecting` flag,
      true when the target intersects the viewport at all (the observer's
      `threshold: 1` only decides when entries are delivered), and which
      node of the document, by index, the target is. */
  datatype Entry = Entry(isIntersecting: bool, target: nat)

  /** How a call ends: normally, or with the `TypeError` JavaScript throws. */
  datatype Outcome = Normal | TypeError

  // ---------------------------------------------------------------------
  // Elements and attributes

  /** `getAttribute(name)`, or `None` for `null`. */
  function GetAttribute(e: Element, name: string): Option<string> {
    if name in e.attributes then Some(e.attributes[name]) else None
  }

  /** `document.createElement(tag)`: no attribute is set. */
  function CreateElement(tag: string): (r: Element)
    ensures r.tag == tag
    ensures forall n :: GetAttribute(r, n).None?
  {
    Element(tag, map[])
  }

  /** `setAttribute(name, value)`: the attribute `name` now has `value`, a
      new one if it was not set before; every other attribute is as it was. */
  function SetAttribute(e: Element, name: string, value: string): (r: Element)
    ensures r.tag == e.tag
    ensures GetAttribute(r, name) == Some(value)
    ensures forall n :: n != name ==> GetAttribute(r, n) == GetAttribute(e, n)
    ensures r.attributes.Keys == e.attributes.Keys + {name}
  {
    e.(attributes := e.attributes[name := value])
  }

  /** The script element `appendCommentsDiv` appends. */
  const CommentsScript: Element := Element("script", map[
    "src" := "https://utteranc.es/client.js",
    "repo" := "ivan-golubev/blog-comments",
    "issue-term" := "pathname",
    "theme" := "github-light",
    "crossorigin" := "anonymous",
    "async" := ""
  ])

  /** `createElement('script')` followed by the source's six `setAttribute`
      calls. */
  function BuildCommentsScript(): Element {
    var e := CreateElement("script");
    var e := SetAttribute(e, "src", "https://utteranc.es/client.js");
    var e := SetAttribute(e, "repo", "ivan-golubev/blog-comments");
    var e := SetAttribute(e, "issue-term", "pathname");
    var e := SetAttribute(e, "theme", "github-light");
    var e := SetAttribute(e, "crossorigin", "anonymous");
    SetAttribute(e, "async", "")
  }

  /** The six calls build exactly `CommentsScript`. */
  lemma BuildIsCommentsScript()
    ensures BuildCommentsScript() == CommentsScript
  {
  }

  /** The comment widget's script has the six attributes the utterances
      client reads, with these values, and no other attribute. */
  lemma CommentsScriptAttributes()
    ensures CommentsScript.tag == "script"
    ensures CommentsScript.attributes.Keys == {"src", "repo", "issue-term", "theme", "crossorigin", "async"}
    ensures GetAttribute(CommentsScript, "src") == Some("https://utteranc.es/client.js")
    ensures GetAttribute(CommentsScript, "repo") == Some("ivan-golubev/blog-comments")
    ensures GetAttribute(CommentsScript, "issue-term") == Some("pathname")
    ensures GetAttribute(CommentsScript, "theme") == Some("github-light")
    ensures GetAttribute(CommentsScript, "crossorigin") == Some("anonymous")
    ensures GetAttribute(CommentsScript, "async") == Some("")
  {
  }

  // ---------------------------------------------------------------------
  // The document

  /** `document.getElementById(id)`: the first node with that id, or `None`
      for `null`. The empty string is no element's id. */
  function GetElementById(nodes: seq<Node>, id: string): (r: Option<nat>)
    ensures r.None? <==> id == "" || forall k :: 0 <= k < |nodes| ==> nodes[k].id != id
    ensures r.Some? ==> r.value < |nodes| && nodes[r.value].id == id
                        && forall k :: 0 <= k < r.value ==> nodes[k].id != id
  {
    if id == "" || nodes == [] then None
    else if nodes[0].id == id then Some(0)
    else match GetElementById(nodes[1..], id)
      case None => None
      case Some(k) => Some(k + 1)
  }

  /** The page as the script sees it. */
  class Document {
    /** `window.location.pathname`. */
    const path: string
    /** The elements of the page, in document order. */
    const nodes: array<Node>
    /** The elements scripts have appended to `document.body`, in order. */
    var body: seq<Element>

    constructor (path: string, nodes: array<Node>)
      ensures this.path == path && this.nodes == nodes && body == []
    {
      this.path := path;
      this.nodes := nodes;
      body := [];
    }
  }

  /** `appendCommentsDiv()`: builds the widget's script element and appends
      it to the body. */
  method AppendCommentsDiv(doc: Document)
    modifies doc`body
    ensures doc.body == old(doc.body) + [CommentsScript]
  {
    var script := BuildCommentsScript();
    BuildIsCommentsScript();
    doc.body := doc.body + [script];
  }

  // ---------------------------------------------------------------------
  // The comment loader, as values

  /** What the loader's closure and the body amount to: the flag
      `commentSectionAdded`, the nodes each `IntersectionObserver` made so
      far watches (oldest first), and the body's appended elements. */
  datatype LoaderState = LoaderState(added: bool, observers: seq<set<nat>>, body: seq<Element>)

  /** What can happen to a loader: a call of `observeBottomMarker` (with
      what `getElementById('bottom-marker')` found), or the browser calling
      the callback of one of the observers with a batch of entries. */
  datatype Event =
    | Observe(marker: Option<nat>)
    | Notify(observer: nat, entries: seq<Entry>)

  /** The callback's test: the first entry is intersecting and the comments
      are not there yet. Later entries of the batch are not looked at. */
  predicate Triggers(s: LoaderState, observer: nat, entries: seq<Entry>) {
    observer < |s.observers| && entries != [] && entries[0].isIntersecting && !s.added
  }

  /** One event. A callback of an observer that does not exist cannot be
      delivered, and counts as no event. */
  function Step(s: LoaderState, e: Event): (r: LoaderState)
    ensures s.added ==> r.added
    ensures (r.added && !s.added) <==> (e.Notify? && Triggers(s, e.observer, e.entries))
    ensures r.body == s.body + (if r.added && !s.added then [CommentsScript] else [])
    ensures e.Notify? && !Triggers(s, e.observer, e.entries) ==> r == s
    ensures e.Notify? && Triggers(s, e.observer, e.entries) ==>
              r.observers == s.observers[e.observer := s.observers[e.observer] - {e.entries[0].target}]
    ensures e.Observe? ==>
              && r.added == s.added && r.body == s.body
              && r.observers == s.observers + [if e.marker.Some? then {e.marker.value} else {}]
  {
    match e
    case Observe(marker) =>
      s.(observers := s.observers + [if marker.Some? then {marker.value} else {}])
    case Notify(k, entries) =>
      if Triggers(s, k, entries) then
        LoaderState(true, s.observers[k := s.observers[k] - {entries[0].target}], s.body + [CommentsScript])
      else s
  }

  /** A sequence of events, in order. */
  function Run(s: LoaderState, events: seq<Event>): LoaderState
    decreases |events|
  {
    if events == [] then s else Run(Step(s, events[0]), events[1..])
  }

  /** The flag never goes back, and over any sequence of events the
      comment script is appended at most once: exactly when the flag went
      from false to true. */
  lemma {:induction false} AtMostOneInjection(s: LoaderState, events: seq<Event>)
    ensures s.added ==> Run(s, events).added
    ensures Run(s, events).body == s.body + (if Run(s, events).added && !s.added then [CommentsScript] else [])
    decreases |events|
  {
    if events != [] {
      AtMostOneInjection(Step(s, events[0]), events[1..]);
    }
  }

  /** Only the first entry of a batch matters. */
  lemma LaterEntriesIgnored(s: LoaderState, k: nat, first: Entry, rest: seq<Entry>, other: seq<Entry>)
    ensures Step(s, Notify(k, [first] + rest)) == Step(s, Notify(k, [first] + other))
  {
  }

  /** Callbacks whose first entry is not intersecting change neither the flag,
      nor the body, nor what is observed. */
  lemma {:induction false} QuietCallbacksChangeNothing(s: LoaderState, events: seq<Event>)
    requires forall k :: 0 <= k < |events| ==>
               events[k].Notify? && (events[k].entries == [] || !events[k].entries[0].isIntersecting)
    ensures Run(s, events) == s
    decreases |events|
  {
    if events != [] {
      QuietCallbacksChangeNothing(s, events[1..]);
    }
  }

  /** Once the comments are added, callbacks change nothing at all. */
  lemma {:induction false} CallbacksAfterInjectionChangeNothing(s: LoaderState, events: seq<Event>)
    requires s.added
    requires forall k :: 0 <= k < |events| ==> events[k].Notify?
    ensures Run(s, events) == s
    decreases |events|
  {
    if events != [] {
      CallbacksAfterInjectionChangeNothing(s, events[1..]);
    }
  }

  /** A loader whose `observeBottomMarker` is never called has no
      observer, so nothing can call its callback: it never appends. */
  lemma {:induction false} NoObserverNoInjection(s: LoaderState, events: seq<Event>)
    requires s.observers == []
    requires forall k :: 0 <= k < |events| ==> events[k].Notify?
    ensures Run(s, events) == s
    decreases |events|
  {
    if events != [] {
      NoObserverNoInjection(s, events[1..]);
    }
  }

  /** The browser passes an observer's callback a non-empty batch of
      entries about nodes that observer watches. */
  predicate Deliverable(s: LoaderState, e: Event) {
    e.Notify? ==>
      && e.observer < |s.observers|
      && e.entries != []
      && forall j :: 0 <= j < |e.entries| ==> e.entries[j].target in s.observers[e.observer]
  }

  /** Every event of the sequence can happen where it happens. */
  predicate DeliverableRun(s: LoaderState, events: seq<Event>)
    decreases |events|
  {
    events != [] ==> Deliverable(s, events[0]) && DeliverableRun(Step(s, events[0]), events[1..])
  }

  /** The trigger unsubscribes: the observer that fired no longer watches
      the marker, so it cannot deliver another entry about it. */
  lemma UnobserveAfterTrigger(s: LoaderState, k: nat, entries: seq<Entry>)
    requires Triggers(s, k, entries)
    ensures var r := Step(s, Notify(k, entries));
            && entries[0].target !in r.observers[k]
            && !Deliverable(r, Notify(k, [Entry(true, entries[0].target)]))
  {
    var r := Step(s, Notify(k, entries));
    var again := [Entry(true, entries[0].target)];
    assert again[0].target !in r.observers[k];
  }

  /** Without the marker in the page the observers watch nothing, and
      no deliverable sequence of events ever appends the comments. */
  lemma {:induction false} MissingMarkerNoInjection(s: LoaderState, events: seq<Event>)
    requires forall k :: 0 <= k < |s.observers| ==> s.observers[k] == {}
    requires forall k :: 0 <= k < |events| ==> events[k].Observe? ==> events[k].marker.None?
    requires DeliverableRun(s, events)
    ensures Run(s, events).added == s.added && Run(s, events).body == s.body
    decreases |events|
  {
    if events != [] {
      var s' := Step(s, events[0]);
      MissingMarkerNoInjection(s', events[1..]);
    }
  }

  /** The state `setupCommentLoader` starts a closure in. */
  function Fresh(body: seq<Element>): LoaderState {
    LoaderState(false, [], body)
  }

  /** Observing the marker and then seeing it intersect, stop intersecting
      and intersect again appends the comments exactly once. */
  lemma MarkerToggling(m: nat)
    ensures Run(Fresh([]), [
              Observe(Some(m)),
              Notify(0, [Entry(false, m)]),
              Notify(0, [Entry(true, m)]),
              Notify(0, [Entry(false, m)]),
              Notify(0, [Entry(true, m)])
            ]) == LoaderState(true, [{}], [CommentsScript])
  {
    var events := [Observe(Some(m)), Notify(0, [Entry(false, m)]), Notify(0, [Entry(true, m)]),
                   Notify(0, [Entry(false, m)]), Notify(0, [Entry(true, m)])];
    var s1 := Step(Fresh([]), events[0]);
    assert s1 == LoaderState(false, [{m}], []);
    var s2 := Step(s1, events[1]);
    assert s2 == s1;
    var s3 := Step(s2, events[2]);
    assert {m} - {m} == {};
    assert [{m}][0 := {}] == [{}];
    assert s3 == LoaderState(true, [{}], [CommentsScript]);
    CallbacksAfterInjectionChangeNothing(s3, events[3..]);
    assert events[1..][1..] == events[2..] && events[2..][1..] == events[3..];
    assert Run(Fresh([]), events) == Run(s1, events[1..]);
    assert Run(s1, events[1..]) == Run(s2, events[2..]);
    assert Run(s2, events[2..]) == Run(s3, events[3..]);
  }

  // ---------------------------------------------------------------------
  // The comment loader, as the closure it is

  /** The closure `setupCommentLoader` creates, bound to the document whose
      body it appends to. `observers` holds, for every `IntersectionObserver`
      created by a call of `observeBottomMarker` (the closure variable
      `observer` names the latest), the nodes it watches. */
  class CommentLoader {
    const doc: Document
    var commentSectionAdded: bool
    var observers: seq<set<nat>>

    ghost function State(): LoaderState
      reads this, doc
    {
      LoaderState(commentSectionAdded, observers, doc.body)
    }

    /** `setupCommentLoader()`: the flag starts false and nothing is
        observed; the closure's `observeBottomMarker` is this object's
        method of that name. */
    constructor (doc: Document)
      ensures this.doc == doc
      ensures State() == Fresh(doc.body)
    {
      this.doc := doc;
      commentSectionAdded := false;
      observers := [];
    }

    /** `observeBottomMarker()`: creates a new observer and has it watch
        `#bottom-marker`. When the page has no such element, `observe(null)`
        throws a `TypeError` after the observer was created. */
    method ObserveBottomMarker() returns (outcome: Outcome)
      modifies this`observers
      ensures State() == Step(old(State()), Observe(GetElementById(doc.nodes[..], "bottom-marker")))
      ensures outcome == if GetElementById(doc.nodes[..], "bottom-marker").None? then TypeError else Normal
    {
      var marker := GetElementById(doc.nodes[..], "bottom-marker");
      observers := observers + [{}];
      if marker.None? {
        return TypeError;
      }
      observers := observers[|observers| - 1 := {marker.value}];
      outcome := Normal;
    }

    /** `callback(entries, observer)`, called by the browser for the
        observer numbered `observer`. Only `entries[0]` is looked at; an
        empty batch makes reading `isIntersecting` of `undefined` throw. */
    method Callback(observer: nat, entries: seq<Entry>) returns (outcome: Outcome)
      requires observer < |observers|
      modifies this`commentSectionAdded, this`observers, doc`body
      ensures State() == Step(old(State()), Notify(observer, entries))
      ensures outcome == if entries == [] then TypeError else Normal
    {
      if entries == [] {
        return TypeError;
      }
      var entry := entries[0];
      if entry.isIntersecting && !commentSectionAdded {
        commentSectionAdded := true;
        AppendCommentsDiv(doc);
        observers := observers[observer := observers[observer] - {entry.target}];
      }
      outcome := Normal;
    }
  }

  // ---------------------------------------------------------------------
  // The index page and init

  /** The class of the blocks the index page hides. */
  const HideClass := "hide-on-index-page"

  /** The nodes after every `.hide-on-index-page` block got
      `style.display = 'none'`. */
  function HideOnIndex(nodes: seq<Node>): (r: seq<Node>)
    ensures |r| == |nodes|
    ensures forall i :: 0 <= i < |nodes| ==> r[i].id == nodes[i].id && r[i].classes == nodes[i].classes
    ensures forall i :: 0 <= i < |nodes| ==>
              r[i].display == if HideClass in nodes[i].classes then "none" else nodes[i].display
    decreases |nodes|
  {
    if nodes == [] then []
    else
      var n := nodes[0];
      [if HideClass in n.classes then n.(display := "none") else n] + HideOnIndex(nodes[1..])
  }

  /** Hiding the blocks twice is hiding them once. */
  lemma HideOnIndexIdempotent(nodes: seq<Node>)
    ensures HideOnIndex(HideOnIndex(nodes)) == HideOnIndex(nodes)
  {
    var once := HideOnIndex(nodes);
    var twice := HideOnIndex(once);
    forall i | 0 <= i < |nodes| ensures twice[i] == once[i] {
    }
  }

  /** `hideBlocksAtIndexPage()`: sets `display` to `none` on every block
      with class `hide-on-index-page`, and touches nothing else. */
  method HideBlocksAtIndexPage(doc: Document)
    modifies doc.nodes
    ensures doc.nodes[..] == HideOnIndex(old(doc.nodes[..]))
  {
    var blocks := doc.nodes;
    ghost var before := blocks[..];
    for i := 0 to blocks.Length
      invariant forall k :: 0 <= k < i ==>
                  blocks[k] == if HideClass in before[k].classes then before[k].(display := "none") else before[k]
      invariant forall k :: i <= k < blocks.Length ==> blocks[k] == before[k]
    {
      if HideClass in blocks[i].classes {
        blocks[i] := blocks[i].(display := "none");
      }
    }
    ghost var hidden := HideOnIndex(before);
    assert forall k :: 0 <= k < blocks.Length ==> blocks[k] == hidden[k];
  }

  /** The paths `init` treats as the index page. */
  predicate IsRootPath(path: string) {
    path == "/" || path == "/index.html" || path == ""
  }

  /** `init()`, run on page load. On the index page it hides the blocks;
      elsewhere it calls `setupCommentLoader` and drops the function that
      returns, so no observer is ever created and nothing is appended. The
      dropped closure is returned here only so that the contract can say
      what state it is left in. */
  method Init(doc: Document) returns (dropped: CommentLoader?)
    modifies doc.nodes
    ensures doc.body == old(doc.body)
    ensures IsRootPath(doc.path) ==> dropped == null && doc.nodes[..] == HideOnIndex(old(doc.nodes[..]))
    ensures !IsRootPath(doc.path) ==>
              && dropped != null && fresh(dropped) && dropped.doc == doc
              && dropped.State() == Fresh(doc.body)
              && doc.nodes[..] == old(doc.nodes[..])
  {
    if IsRootPath(doc.path) {
      HideBlocksAtIndexPage(doc);
      dropped := null;
    } else {
      dropped := new CommentLoader(doc);
    }
  }

  /** `init` as evidently intended: on a page other than the index, the
      function `setupCommentLoader` returns is also called, so the marker
      is observed. */
  method InitWithObserver(doc: Document) returns (loader: CommentLoader?, outcome: Outcome)
    modifies doc.nodes
    ensures doc.body == old(doc.body)
    ensures IsRootPath(doc.path) ==>
              && loader == null && outcome == Normal
              && doc.nodes[..] == HideOnIndex(old(doc.nodes[..]))
    ensures !IsRootPath(doc.path) ==>
              && loader != null && fresh(loader) && loader.doc == doc
              && loader.State() == Step(Fresh(doc.body), Observe(GetElementById(doc.nodes[..], "bottom-marker")))
              && outcome == (if GetElementById(doc.nodes[..], "bottom-marker").None? then TypeError else Normal)
              && doc.nodes[..] == old(doc.nodes[..])
  {
    if IsRootPath(doc.path) {
      HideBlocksAtIndexPage(doc);
      loader, outcome := null, Normal;
    } else {
      loader := new CommentLoader(doc);
      outcome := loader.ObserveBottomMarker();
    }
  }

  /** With the intended `init`, the comments do load: once the marker
      intersects the viewport, the first callback appends the script, and nothing after
      it appends another. */
  lemma {:induction false} IntendedInitLoadsComments(body: seq<Element>, m: nat, later: seq<Event>)
    requires forall k :: 0 <= k < |later| ==> later[k].Notify?
    ensures Run(Fresh(body), [Observe(Some(m)), Notify(0, [Entry(true, m)])] + later).body == body + [CommentsScript]
  {
    var events := [Observe(Some(m)), Notify(0, [Entry(true, m)])] + later;
    var s1 := Step(Fresh(body), events[0]);
    var s2 := Step(s1, events[1]);
    assert s2.added && s2.body == body + [CommentsScript];
    CallbacksAfterInjectionChangeNothing(s2, later);
    assert events[1..][1..] == later;
  }
}
