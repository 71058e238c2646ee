// The size of tool arguments without rendering them (entryConstraints.ts). Values live in a heap, so they may
// be shared and may contain themselves.
module ArgumentSize {
  import opened Wrappers

  type Byte = n: nat | n < 256
  type Bytes = seq<Byte>
  type Ref = nat

  // A scalar is given by its JSON text; Absent is undefined, a function or a symbol.
  datatype Value = Scalar(text: Bytes) | Absent | Object(ref: Ref)
  // A member's key is given by its JSON text, quotes included.
  datatype Member = Member(key: Bytes, value: Value)
  datatype Node = List(items: seq<Value>) | Record(members: seq<Member>)
  type Heap = map<Ref, Node>

  const NULL_TEXT: Bytes := [0x6E, 0x75, 0x6C, 0x6C]
  const COMMA: Byte := 0x2C
  const COLON: Byte := 0x3A

  predicate InHeap(heap: Heap, v: Value) {
    v.Object? ==> v.ref in heap
  }

  predicate Closed(heap: Heap) {
    forall r :: r in heap ==> forall i :: 0 <= i < |Children(heap[r])| ==> InHeap(heap, Children(heap[r])[i])
  }

  // JSON.stringify leaves out members with absent values.
  function Kept(members: seq<Member>): (r: seq<Member>)
    ensures |r| <= |members|
  {
    if members == [] then []
    else if members[0].value.Absent? then Kept(members[1..]) else [members[0]] + Kept(members[1..])
  }

  lemma {:induction false} KeptFrom(members: seq<Member>, from: nat) returns (picks: seq<nat>)
    requires from <= |members|
    ensures |picks| == |Kept(members[from..])|
    ensures forall k :: 0 <= k < |picks| ==> from <= picks[k] < |members| && Kept(members[from..])[k] == members[picks[k]]
    ensures forall k, n :: 0 <= k < n < |picks| ==> picks[k] < picks[n]
    ensures forall i :: from <= i < |members| ==> (i in picks <==> !members[i].value.Absent?)
    decreases |members| - from
  {
    if from == |members| {
      picks := [];
    } else {
      assert members[from..][1..] == members[from + 1..];
      var rest := KeptFrom(members, from + 1);
      picks := (if members[from].value.Absent? then [] else [from]) + rest;
    }
  }

  // The members that are kept are those with a value, each once and in their order: `picks` are their places.
  lemma KeptAre(members: seq<Member>) returns (picks: seq<nat>)
    ensures |picks| == |Kept(members)|
    ensures forall k :: 0 <= k < |picks| ==> picks[k] < |members| && Kept(members)[k] == members[picks[k]]
    ensures forall k, n :: 0 <= k < n < |picks| ==> picks[k] < picks[n]
    ensures forall i :: 0 <= i < |members| ==> (i in picks <==> !members[i].value.Absent?)
  {
    assert members[0..] == members;
    picks := KeptFrom(members, 0);
  }

  function Children(n: Node): seq<Value> {
    match n
    case List(items) => items
    case Record(members) => seq(|Kept(members)|, i requires 0 <= i < |Kept(members)| => Kept(members)[i].value)
  }

  // ---- The recursive rendering ----

  function Join(texts: seq<Bytes>): Bytes {
    if texts == [] then [] else if |texts| == 1 then texts[0] else texts[0] + [COMMA] + Join(texts[1..])
  }

  function Keyed(members: seq<Member>, texts: seq<Bytes>): seq<Bytes>
    requires |members| == |texts|
  {
    if members == [] then [] else [members[0].key + [COLON] + texts[0]] + Keyed(members[1..], texts[1..])
  }

  function Assemble(n: Node, texts: seq<Bytes>): Bytes
    requires |texts| == |Children(n)|
  {
    match n
    case List(_) => [0x5B] + Join(texts) + [0x5D]
    case Record(members) => [0x7B] + Join(Keyed(Kept(members), texts)) + [0x7D]
  }

  // None when a value is its own ancestor.
  function Render(heap: Heap, v: Value, ancestors: set<Ref>): Option<Bytes>
    requires Closed(heap) && InHeap(heap, v)
    decreases heap.Keys - ancestors, 0
  {
    match v
    case Scalar(text) => Some(text)
    case Absent => Some(NULL_TEXT)
    case Object(r) =>
      if r in ancestors then None
      else
        assert r in heap.Keys - ancestors && r !in heap.Keys - (ancestors + {r});
        match RenderAll(heap, Children(heap[r]), ancestors + {r})
        case None => None
        case Some(texts) => Some(Assemble(heap[r], texts))
  }

  function RenderAll(heap: Heap, vs: seq<Value>, ancestors: set<Ref>): (r: Option<seq<Bytes>>)
    requires Closed(heap) && forall i :: 0 <= i < |vs| ==> InHeap(heap, vs[i])
    ensures r.Some? ==> |r.value| == |vs|
    decreases heap.Keys - ancestors, |vs|
  {
    if vs == [] then Some([])
    else match Render(heap, vs[0], ancestors)
         case None => None
         case Some(text) =>
           match RenderAll(heap, vs[1..], ancestors)
           case None => None
           case Some(texts) => Some([text] + texts)
  }

  // ---- Sizes ----

  function Total(texts: seq<Bytes>): nat {
    if texts == [] then 0 else |texts[0]| + Total(texts[1..])
  }

  function KeyBytes(members: seq<Member>): nat {
    if members == [] then 0 else |members[0].key| + 1 + KeyBytes(members[1..])
  }

  function Commas(n: nat): nat {
    if n == 0 then 0 else n - 1
  }

  function Overhead(n: Node): nat {
    match n
    case List(items) => 2 + Commas(|items|)
    case Record(members) => 2 + Commas(|Kept(members)|) + KeyBytes(Kept(members))
  }

  lemma {:induction false} JoinSize(texts: seq<Bytes>)
    ensures |Join(texts)| == Total(texts) + Commas(|texts|)
  {
    if |texts| == 1 {
      assert texts[1..] == [];
    } else if texts != [] {
      JoinSize(texts[1..]);
    }
  }

  lemma {:induction false} KeyedSize(members: seq<Member>, texts: seq<Bytes>)
    requires |members| == |texts|
    ensures |Keyed(members, texts)| == |texts| && Total(Keyed(members, texts)) == KeyBytes(members) + Total(texts)
  {
    if members != [] {
      KeyedSize(members[1..], texts[1..]);
      assert Keyed(members, texts)[1..] == Keyed(members[1..], texts[1..]);
    }
  }

  lemma AssembleSize(n: Node, texts: seq<Bytes>)
    requires |texts| == |Children(n)|
    ensures |Assemble(n, texts)| == Overhead(n) + Total(texts)
  {
    match n {
      case List(_) => JoinSize(texts);
      case Record(members) =>
        KeyedSize(Kept(members), texts);
        JoinSize(Keyed(Kept(members), texts));
    }
  }

  // ---- The stack ----

  datatype Task = Visit(value: Value) | Finish(ref: Ref)

  predicate TasksInHeap(heap: Heap, tasks: seq<Task>) {
    forall i :: 0 <= i < |tasks| && tasks[i].Visit? ==> InHeap(heap, tasks[i].value)
  }

  // What the tasks, last first, still have to count; None when one of them meets an ancestor.
  function Remaining(heap: Heap, tasks: seq<Task>, ancestors: set<Ref>): Option<nat>
    requires Closed(heap) && TasksInHeap(heap, tasks)
  {
    if tasks == [] then Some(0)
    else
      var rest := tasks[..|tasks| - 1];
      match tasks[|tasks| - 1]
      case Finish(r) => Remaining(heap, rest, ancestors - {r})
      case Visit(v) =>
        match Render(heap, v, ancestors)
        case None => None
        case Some(text) => Plus(|text|, Remaining(heap, rest, ancestors))
  }

  function Plus(n: nat, m: Option<nat>): Option<nat> {
    if m.None? then None else Some(n + m.value)
  }

  // How many tasks the loop still pops.
  function Steps(heap: Heap, v: Value, ancestors: set<Ref>): nat
    requires Closed(heap) && InHeap(heap, v)
    decreases heap.Keys - ancestors, 0
  {
    if !v.Object? || v.ref in ancestors then 1
    else
      assert v.ref in heap.Keys - ancestors && v.ref !in heap.Keys - (ancestors + {v.ref});
      2 + StepsAll(heap, Children(heap[v.ref]), ancestors + {v.ref})
  }

  function StepsAll(heap: Heap, vs: seq<Value>, ancestors: set<Ref>): nat
    requires Closed(heap) && forall i :: 0 <= i < |vs| ==> InHeap(heap, vs[i])
    decreases heap.Keys - ancestors, |vs|
  {
    if vs == [] then 0 else Steps(heap, vs[0], ancestors) + StepsAll(heap, vs[1..], ancestors)
  }

  function TaskSteps(heap: Heap, tasks: seq<Task>, ancestors: set<Ref>): nat
    requires Closed(heap) && TasksInHeap(heap, tasks)
  {
    if tasks == [] then 0
    else
      var rest := tasks[..|tasks| - 1];
      match tasks[|tasks| - 1]
      case Finish(r) => 1 + TaskSteps(heap, rest, ancestors - {r})
      case Visit(v) => Steps(heap, v, ancestors) + TaskSteps(heap, rest, ancestors)
  }

  // The children on the stack, the first one on top.
  function Reversed(vs: seq<Value>): (r: seq<Task>)
    ensures |r| == |vs| && forall i :: 0 <= i < |r| ==> r[i] == Visit(vs[|vs| - 1 - i])
  {
    seq(|vs|, i requires 0 <= i < |vs| => Visit(vs[|vs| - 1 - i]))
  }

  lemma PopVisit(heap: Heap, rest: seq<Task>, v: Value, ancestors: set<Ref>)
    requires Closed(heap) && TasksInHeap(heap, rest) && InHeap(heap, v)
    ensures TasksInHeap(heap, rest + [Visit(v)])
    ensures Remaining(heap, rest + [Visit(v)], ancestors)
      == match Render(heap, v, ancestors)
         case None => None
         case Some(text) => Plus(|text|, Remaining(heap, rest, ancestors))
    ensures TaskSteps(heap, rest + [Visit(v)], ancestors) == Steps(heap, v, ancestors) + TaskSteps(heap, rest, ancestors)
  {
    hide Render, Steps, Closed;
    assert (rest + [Visit(v)])[..|rest|] == rest;
  }

  lemma PopFinish(heap: Heap, rest: seq<Task>, r: Ref, ancestors: set<Ref>)
    requires Closed(heap) && TasksInHeap(heap, rest)
    ensures TasksInHeap(heap, rest + [Finish(r)])
    ensures Remaining(heap, rest + [Finish(r)], ancestors) == Remaining(heap, rest, ancestors - {r})
    ensures TaskSteps(heap, rest + [Finish(r)], ancestors) == 1 + TaskSteps(heap, rest, ancestors - {r})
  {
    hide Closed;
    assert (rest + [Finish(r)])[..|rest|] == rest;
  }

  lemma {:induction false} PushedCounts(heap: Heap, tasks: seq<Task>, vs: seq<Value>, ancestors: set<Ref>)
    requires Closed(heap) && TasksInHeap(heap, tasks) && forall i :: 0 <= i < |vs| ==> InHeap(heap, vs[i])
    ensures TasksInHeap(heap, tasks + Reversed(vs))
    ensures Remaining(heap, tasks + Reversed(vs), ancestors)
      == match RenderAll(heap, vs, ancestors)
         case None => None
         case Some(texts) => Plus(Total(texts), Remaining(heap, tasks, ancestors))
    ensures TaskSteps(heap, tasks + Reversed(vs), ancestors) == StepsAll(heap, vs, ancestors) + TaskSteps(heap, tasks, ancestors)
    decreases |vs|
  {
    hide Render, Steps, Closed, Remaining, TaskSteps, TasksInHeap;
    if vs == [] {
      assert tasks + Reversed(vs) == tasks;
    } else {
      var rest := tasks + Reversed(vs[1..]);
      PushedCounts(heap, tasks, vs[1..], ancestors);
      assert tasks + Reversed(vs) == rest + [Visit(vs[0])];
      PopVisit(heap, rest, vs[0], ancestors);
    }
  }

  lemma ObjectRenders(heap: Heap, r: Ref, ancestors: set<Ref>)
    requires Closed(heap) && r in heap && r !in ancestors
    ensures Render(heap, Object(r), ancestors)
      == match RenderAll(heap, Children(heap[r]), ancestors + {r})
         case None => None
         case Some(texts) => Some(Assemble(heap[r], texts))
    ensures Steps(heap, Object(r), ancestors) == 2 + StepsAll(heap, Children(heap[r]), ancestors + {r})
  {
  }

  // Popping an object that is no ancestor, and pushing its end and its children, keeps the sum.
  lemma ExpandedCounts(heap: Heap, rest: seq<Task>, r: Ref, ancestors: set<Ref>)
    requires Closed(heap) && r in heap && r !in ancestors && TasksInHeap(heap, rest)
    ensures var pushed := rest + [Finish(r)] + Reversed(Children(heap[r]));
      && TasksInHeap(heap, pushed) && TasksInHeap(heap, rest + [Visit(Object(r))])
      && Remaining(heap, rest + [Visit(Object(r))], ancestors) == Plus(Overhead(heap[r]), Remaining(heap, pushed, ancestors + {r}))
      && TaskSteps(heap, rest + [Visit(Object(r))], ancestors) == 1 + TaskSteps(heap, pushed, ancestors + {r})
  {
    hide Render, RenderAll, Steps, StepsAll, Remaining, TaskSteps, TasksInHeap, Overhead, Assemble, Children;
    var vs := Children(heap[r]);
    ObjectRenders(heap, r, ancestors);
    PopVisit(heap, rest, Object(r), ancestors);
    PopFinish(heap, rest, r, ancestors + {r});
    assert ancestors + {r} - {r} == ancestors;
    PushedCounts(heap, rest + [Finish(r)], vs, ancestors + {r});
    var texts := RenderAll(heap, vs, ancestors + {r});
    if texts.Some? {
      AssembleSize(heap[r], texts.value);
    }
  }

  method PushChildren(tasks: seq<Task>, vs: seq<Value>) returns (r: seq<Task>)
    ensures r == tasks + Reversed(vs)
  {
    r := tasks;
    var i := |vs|;
    while i > 0
      invariant 0 <= i <= |vs| && r == tasks + Reversed(vs)[..|vs| - i]
    {
      i := i - 1;
      r := r + [Visit(vs[i])];
    }
  }

  method CountKeys(members: seq<Member>) returns (bytes: nat)
    ensures bytes == KeyBytes(members)
  {
    bytes := 0;
    var i := |members|;
    while i > 0
      invariant 0 <= i <= |members| && bytes == KeyBytes(members[i..])
    {
      i := i - 1;
      bytes := bytes + |members[i].key| + 1;
      assert members[i..][1..] == members[i + 1..];
    }
  }

  // The loop counts the UTF-8 length of the recursive rendering, and fails exactly when there is none.
  method SerializedArgumentsUtf8Bytes(heap: Heap, args: Value) returns (r: Result<nat>)
    requires Closed(heap) && InHeap(heap, args)
    ensures r.Ok? <==> Render(heap, args, {}).Some?
    ensures r.Ok? ==> r.value == |Render(heap, args, {}).value|
  {
    hide Render, Steps, Overhead, Closed, Remaining, TaskSteps, TasksInHeap, Children;
    var tasks := [Visit(args)];
    var ancestors: set<Ref> := {};
    var bytes: nat := 0;
    StartCounts(heap, args);
    while |tasks| > 0
      invariant TasksInHeap(heap, tasks)
      invariant Plus(bytes, Remaining(heap, tasks, ancestors)) == RenderedSize(heap, args)
      decreases TaskSteps(heap, tasks, ancestors)
    {
      var task, rest := tasks[|tasks| - 1], tasks[..|tasks| - 1];
      assert tasks == rest + [task];
      PoppedInHeap(heap, tasks);
      match task {
        case Finish(ref) =>
          PopFinish(heap, rest, ref, ancestors);
          ancestors := ancestors - {ref};
          tasks := rest;
        case Visit(value) =>
          PopVisit(heap, rest, value, ancestors);
          if !value.Object? {
            ScalarCounts(heap, value, ancestors);
            bytes := bytes + if value.Scalar? then |value.text| else |NULL_TEXT|;
            tasks := rest;
          } else if value.ref in ancestors {
            AncestorCounts(heap, value, ancestors);
            return Err("arguments must be a JSON value without cycles");
          } else {
            ExpandedCounts(heap, rest, value.ref, ancestors);
            var node := heap[value.ref];
            ancestors := ancestors + {value.ref};
            OverheadIs(node);
            bytes := bytes + 2 + Commas(|Children(node)|);
            if node.Record? {
              var keys := CountKeys(Kept(node.members));
              bytes := bytes + keys;
            }
            tasks := PushChildren(rest + [Finish(value.ref)], Children(node));
          }
      }
    }
    NoTasks(heap, ancestors);
    r := Ok(bytes);
  }

  lemma NoTasks(heap: Heap, ancestors: set<Ref>)
    requires Closed(heap)
    ensures TasksInHeap(heap, []) && Remaining(heap, [], ancestors) == Some(0)
  {
  }

  lemma PoppedInHeap(heap: Heap, tasks: seq<Task>)
    requires TasksInHeap(heap, tasks) && tasks != []
    ensures TasksInHeap(heap, tasks[..|tasks| - 1])
    ensures tasks[|tasks| - 1].Visit? ==> InHeap(heap, tasks[|tasks| - 1].value)
  {
  }

  function RenderedSize(heap: Heap, v: Value): Option<nat>
    requires Closed(heap) && InHeap(heap, v)
  {
    match Render(heap, v, {})
    case None => None
    case Some(text) => Some(|text|)
  }

  lemma StartCounts(heap: Heap, v: Value)
    requires Closed(heap) && InHeap(heap, v)
    ensures TasksInHeap(heap, [Visit(v)]) && Plus(0, Remaining(heap, [Visit(v)], {})) == RenderedSize(heap, v)
  {
    hide Render;
    assert [Visit(v)][..0] == [];
  }

  lemma ScalarCounts(heap: Heap, v: Value, ancestors: set<Ref>)
    requires Closed(heap) && InHeap(heap, v) && !v.Object?
    ensures Render(heap, v, ancestors) == Some(if v.Scalar? then v.text else NULL_TEXT) && Steps(heap, v, ancestors) == 1
  {
  }

  lemma AncestorCounts(heap: Heap, v: Value, ancestors: set<Ref>)
    requires Closed(heap) && InHeap(heap, v) && v.Object? && v.ref in ancestors
    ensures Render(heap, v, ancestors) == None
  {
  }

  lemma OverheadIs(n: Node)
    ensures Overhead(n) == 2 + Commas(|Children(n)|) + if n.Record? then KeyBytes(Kept(n.members)) else 0
  {
  }

  // ---- Cycles ----

  // Each reference is a child of the one before it.
  ghost predicate Walk(heap: Heap, v: Value, p: seq<Ref>) {
    && p != [] && v == Object(p[0])
    && (forall i :: 0 <= i < |p| ==> p[i] in heap)
    && (forall i :: 0 < i < |p| ==> Object(p[i]) in Children(heap[p[i - 1]]))
  }

  // The walk ends at an ancestor, or where it has already been.
  ghost predicate Closes(p: seq<Ref>, ancestors: set<Ref>) {
    p != [] && (p[|p| - 1] in ancestors || p[|p| - 1] in p[..|p| - 1])
  }

  lemma {:induction false} OneFails(heap: Heap, vs: seq<Value>, ancestors: set<Ref>, i: nat)
    requires Closed(heap) && (forall k :: 0 <= k < |vs| ==> InHeap(heap, vs[k])) && i < |vs|
    requires Render(heap, vs[i], ancestors) == None
    ensures RenderAll(heap, vs, ancestors) == None
    decreases |vs|
  {
    hide Render, Closed;
    if i > 0 {
      OneFails(heap, vs[1..], ancestors, i - 1);
    }
  }

  lemma {:induction false} WhichFails(heap: Heap, vs: seq<Value>, ancestors: set<Ref>) returns (i: nat)
    requires Closed(heap) && forall k :: 0 <= k < |vs| ==> InHeap(heap, vs[k])
    requires RenderAll(heap, vs, ancestors) == None
    ensures i < |vs| && Render(heap, vs[i], ancestors) == None
    decreases |vs|
  {
    hide Render, Closed;
    if Render(heap, vs[0], ancestors) == None {
      i := 0;
    } else {
      i := WhichFails(heap, vs[1..], ancestors);
      i := i + 1;
    }
  }

  lemma {:induction false} ClosedWalkFails(heap: Heap, p: seq<Ref>, ancestors: set<Ref>)
    requires Closed(heap) && p != [] && Walk(heap, Object(p[0]), p) && Closes(p, ancestors)
    ensures Render(heap, Object(p[0]), ancestors) == None
    decreases |p|
  {
    hide RenderAll, Closed, Children;
    if p[0] in ancestors {
      AncestorCounts(heap, Object(p[0]), ancestors);
    } else {
      var tail, vs := p[1..], Children(heap[p[0]]);
      assert |p| > 1;
      assert tail[|tail| - 1] == p[|p| - 1] && p[..|p| - 1] == [p[0]] + tail[..|tail| - 1];
      forall k | 0 < k < |tail|
        ensures Object(tail[k]) in Children(heap[tail[k - 1]])
      {
        assert tail[k] == p[k + 1] && tail[k - 1] == p[k];
      }
      ClosedWalkFails(heap, tail, ancestors + {p[0]});
      assert Object(p[1]) in vs;
      var i :| 0 <= i < |vs| && vs[i] == Object(p[1]);
      ChildrenInHeap(heap, p[0]);
      OneFails(heap, vs, ancestors + {p[0]}, i);
      ObjectRenders(heap, p[0], ancestors);
    }
  }

  lemma ChildrenInHeap(heap: Heap, r: Ref)
    requires Closed(heap) && r in heap
    ensures forall i :: 0 <= i < |Children(heap[r])| ==> InHeap(heap, Children(heap[r])[i])
  {
  }

  lemma {:induction false} FailureHasWalk(heap: Heap, v: Value, ancestors: set<Ref>) returns (p: seq<Ref>)
    requires Closed(heap) && InHeap(heap, v) && Render(heap, v, ancestors) == None
    ensures Walk(heap, v, p) && Closes(p, ancestors)
    decreases heap.Keys - ancestors
  {
    hide RenderAll, Closed, Children;
    if v.ref in ancestors {
      p := [v.ref];
    } else {
      ObjectRenders(heap, v.ref, ancestors);
      ChildrenInHeap(heap, v.ref);
      var vs := Children(heap[v.ref]);
      var i := WhichFails(heap, vs, ancestors + {v.ref});
      assert v.ref in heap.Keys - ancestors && v.ref !in heap.Keys - (ancestors + {v.ref});
      var tail := FailureHasWalk(heap, vs[i], ancestors + {v.ref});
      p := [v.ref] + tail;
      assert vs[i] in vs;
      assert p[..|p| - 1] == [v.ref] + tail[..|tail| - 1];
    }
  }

  // The count fails exactly on values that are their own ancestor somewhere; sharing is no failure.
  lemma FailsExactlyOnCycles(heap: Heap, v: Value)
    requires Closed(heap) && InHeap(heap, v)
    ensures Render(heap, v, {}) == None <==> exists p :: Walk(heap, v, p) && Closes(p, {})
  {
    hide Render, Closed;
    if Render(heap, v, {}) == None {
      var p := FailureHasWalk(heap, v, {});
    } else if exists p :: Walk(heap, v, p) && Closes(p, {}) {
      var p :| Walk(heap, v, p) && Closes(p, {});
      ClosedWalkFails(heap, p, {});
    }
  }
}
