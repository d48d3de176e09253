/** `Clause.to_ordered` (popper/core.py): reorder a clause body so that each
    literal's input variables are bound, either by the head's inputs or by
    the outputs of a literal placed before it.

    The body is first turned into a Python set, which keeps the first of
    several literals with the same (predicate, arguments) key; the set's
    iteration order is modelled as the order of the body. */
module Ordering {
  import opened Wrappers
  import opened Core

  // ---------------------------------------------------------------------------
  // Key-distinct bodies
  // ---------------------------------------------------------------------------

  function KeySet(s: seq<Literal>): set<LitKey> {
    set l | l in s :: Key(l)
  }

  /** No two literals of `s` are equal in the sense of `Literal.__eq__`. */
  predicate Distinct(s: seq<Literal>) {
    forall i, j :: 0 <= i < j < |s| ==> Key(s[i]) != Key(s[j])
  }

  /** The scan behind `set(body)`, with `seen` the keys already taken: of
      several equal literals, the first one is kept. */
  function DedupFrom(body: seq<Literal>, seen: set<LitKey>): (r: seq<Literal>)
    ensures Distinct(r)
    ensures forall l :: l in r ==> l in body && Key(l) !in seen
    ensures KeySet(r) == KeySet(body) - seen
    decreases |body|
  {
    if |body| == 0 then []
    else
      var rest := DedupFrom(body[1..], seen + {Key(body[0])});
      assert KeySet(body) == {Key(body[0])} + KeySet(body[1..]);
      if Key(body[0]) in seen then DedupFrom(body[1..], seen)
      else
        assert KeySet([body[0]] + rest) == {Key(body[0])} + KeySet(rest);
        [body[0]] + rest
  }

  /** `set(body)`. */
  function Dedup(body: seq<Literal>): (r: seq<Literal>)
    ensures Distinct(r)
    ensures forall l :: l in r ==> l in body
    ensures KeySet(r) == KeySet(body)
  {
    DedupFrom(body, {})
  }

  /** The literal kept for each key is its first occurrence in the body. */
  lemma {:induction false} DedupFromKeepsFirst(body: seq<Literal>, seen: set<LitKey>, i: nat)
    requires i < |body| && Key(body[i]) !in seen
    requires forall j :: 0 <= j < i ==> Key(body[j]) != Key(body[i])
    ensures body[i] in DedupFrom(body, seen)
    decreases |body|
  {
    if i > 0 {
      var seen' := if Key(body[0]) in seen then seen else seen + {Key(body[0])};
      assert body[1..][i - 1] == body[i];
      DedupFromKeepsFirst(body[1..], seen', i - 1);
    }
  }

  lemma DedupKeepsFirst(body: seq<Literal>, i: nat)
    requires i < |body|
    requires forall j :: 0 <= j < i ==> Key(body[j]) != Key(body[i])
    ensures body[i] in Dedup(body)
  {
    DedupFromKeepsFirst(body, {}, i);
  }

  /** Dropping every literal equal to one with key `k`, as
      `body_literals.difference({selected})` does. */
  function RemoveKey(s: seq<Literal>, k: LitKey): (r: seq<Literal>)
    ensures forall l :: l in r <==> l in s && Key(l) != k
    ensures Distinct(s) ==> Distinct(r)
    ensures |r| <= |s|
    ensures k in KeySet(s) ==> |r| < |s|
    decreases |s|
  {
    if |s| == 0 then []
    else
      var rest := RemoveKey(s[1..], k);
      assert forall l :: l in s[1..] ==> l in s;
      if Key(s[0]) == k then rest
      else
        assert Distinct(s) ==> Key(s[0]) !in KeySet(s[1..]);
        [s[0]] + rest
  }

  // ---------------------------------------------------------------------------
  // Valid orders
  // ---------------------------------------------------------------------------

  /** A literal whose inputs are all bound. */
  predicate Ready(l: Literal, grounded: set<Arg>) {
    Inputs(l) <= grounded
  }

  /** Placing the literals of `w` in order, starting from the bound variables
      `grounded`, every literal is ready when its turn comes. */
  predicate ValidFrom(grounded: set<Arg>, w: seq<Literal>)
    decreases |w|
  {
    |w| == 0 || (Ready(w[0], grounded) && ValidFrom(grounded + Outputs(w[0]), w[1..]))
  }

  // ---------------------------------------------------------------------------
  // The selection scan
  // ---------------------------------------------------------------------------

  /** One pass of the `for literal in body_literals` loop from position `i`:
      stop at the first ready literal whose predicate differs from the head's,
      otherwise remember the latest ready (recursive) literal. */
  function SelectFrom(pending: seq<Literal>, headPred: string, grounded: set<Arg>,
                      i: nat, found: Option<nat>): (r: Option<nat>)
    requires i <= |pending|
    requires found.Some? ==> found.value < i && Ready(pending[found.value], grounded)
                             && pending[found.value].pred == headPred
                             && forall j :: found.value < j < i ==> !Ready(pending[j], grounded)
    requires found.None? ==> forall j :: 0 <= j < i ==> !Ready(pending[j], grounded)
    requires forall j :: 0 <= j < i && Ready(pending[j], grounded) ==> pending[j].pred == headPred
    ensures r.Some? ==> r.value < |pending| && Ready(pending[r.value], grounded)
    ensures r.None? <==> forall j :: 0 <= j < |pending| ==> !Ready(pending[j], grounded)
    ensures r.Some? && pending[r.value].pred != headPred ==>
              forall j :: 0 <= j < r.value && Ready(pending[j], grounded) ==> pending[j].pred == headPred
    ensures r.Some? && pending[r.value].pred == headPred ==>
              (forall j :: 0 <= j < |pending| && Ready(pending[j], grounded) ==> pending[j].pred == headPred)
              && forall j :: r.value < j < |pending| ==> !Ready(pending[j], grounded)
    decreases |pending| - i
  {
    if i == |pending| then found
    else if Ready(pending[i], grounded) then
      if pending[i].pred != headPred then Some(i)
      else SelectFrom(pending, headPred, grounded, i + 1, Some(i))
    else SelectFrom(pending, headPred, grounded, i + 1, found)
  }

  /** The literal `to_ordered` places next: the first ready non-recursive one
      if there is one, else the last ready recursive one, else none. */
  function Select(pending: seq<Literal>, headPred: string, grounded: set<Arg>): (r: Option<nat>)
    ensures r.Some? ==> r.value < |pending| && Ready(pending[r.value], grounded)
    ensures r.None? <==> forall j :: 0 <= j < |pending| ==> !Ready(pending[j], grounded)
    ensures r.Some? && pending[r.value].pred != headPred ==>
              forall j :: 0 <= j < r.value && Ready(pending[j], grounded) ==> pending[j].pred == headPred
    ensures r.Some? && pending[r.value].pred == headPred ==>
              (forall j :: 0 <= j < |pending| && Ready(pending[j], grounded) ==> pending[j].pred == headPred)
              && forall j :: r.value < j < |pending| ==> !Ready(pending[j], grounded)
  {
    SelectFrom(pending, headPred, grounded, 0, None)
  }

  // ---------------------------------------------------------------------------
  // The ordering loop
  // ---------------------------------------------------------------------------

  /** The `while body_literals` loop: place the selected literal, bind its
      outputs, remove it, and repeat; raise when nothing is ready. */
  function Place(pending: seq<Literal>, headPred: string, grounded: set<Arg>): (r: Result<seq<Literal>>)
    ensures r.Err? ==> r.error == OrderingError
    ensures r.Ok? ==> |r.value| <= |pending|
    decreases |pending|
  {
    if |pending| == 0 then Ok([])
    else match Select(pending, headPred, grounded)
      case None => Err(OrderingError)
      case Some(i) =>
        var s := pending[i];
        var rest := Place(RemoveKey(pending, Key(s)), headPred, grounded + Outputs(s));
        if rest.Err? then rest else Ok([s] + rest.value)
  }

  /** What the loop places is a valid order of exactly the pending literals
      (one per key). */
  lemma PlaceSound(pending: seq<Literal>, headPred: string, grounded: set<Arg>)
    requires Place(pending, headPred, grounded).Ok?
    ensures ValidFrom(grounded, Place(pending, headPred, grounded).value)
    ensures Distinct(Place(pending, headPred, grounded).value)
    ensures KeySet(Place(pending, headPred, grounded).value) == KeySet(pending)
    ensures forall l :: l in Place(pending, headPred, grounded).value ==> l in pending
  {
    PlaceValid(pending, headPred, grounded);
    PlaceMembers(pending, headPred, grounded);
    PlaceDistinct(pending, headPred, grounded);
  }

  /** Each placed literal is ready once the ones before it bind their
      outputs. */
  lemma {:induction false} PlaceValid(pending: seq<Literal>, headPred: string, grounded: set<Arg>)
    requires Place(pending, headPred, grounded).Ok?
    ensures ValidFrom(grounded, Place(pending, headPred, grounded).value)
    decreases |pending|
  {
    if |pending| > 0 {
      var s := pending[Select(pending, headPred, grounded).value];
      var g' := grounded + Outputs(s);
      var rem := RemoveKey(pending, Key(s));
      PlaceValid(rem, headPred, g');
      var rest := Place(rem, headPred, g').value;
      assert Place(pending, headPred, grounded).value == [s] + rest;
      assert ([s] + rest)[1..] == rest;
    }
  }

  /** The loop places pending literals only, and one of each key. */
  lemma {:induction false} PlaceMembers(pending: seq<Literal>, headPred: string, grounded: set<Arg>)
    requires Place(pending, headPred, grounded).Ok?
    ensures KeySet(Place(pending, headPred, grounded).value) == KeySet(pending)
    ensures forall l :: l in Place(pending, headPred, grounded).value ==> l in pending
    decreases |pending|
  {
    if |pending| > 0 {
      var s := pending[Select(pending, headPred, grounded).value];
      var g' := grounded + Outputs(s);
      var rem := RemoveKey(pending, Key(s));
      PlaceMembers(rem, headPred, g');
      var rest := Place(rem, headPred, g').value;
      assert Place(pending, headPred, grounded).value == [s] + rest;
      KeySetRemove(pending, s);
      KeySetCons(s, rest);
    }
  }

  /** No two placed literals share a key. */
  lemma {:induction false} PlaceDistinct(pending: seq<Literal>, headPred: string, grounded: set<Arg>)
    requires Place(pending, headPred, grounded).Ok?
    ensures Distinct(Place(pending, headPred, grounded).value)
    decreases |pending|
  {
    if |pending| > 0 {
      var s := pending[Select(pending, headPred, grounded).value];
      var g' := grounded + Outputs(s);
      var rem := RemoveKey(pending, Key(s));
      PlaceDistinct(rem, headPred, g');
      PlaceMembers(rem, headPred, g');
      var rest := Place(rem, headPred, g').value;
      assert Place(pending, headPred, grounded).value == [s] + rest;
      DistinctCons(s, rest);
    }
  }

  /** The keys of `s` are those left after removing `x`'s key, plus that key. */
  lemma KeySetRemove(s: seq<Literal>, x: Literal)
    requires x in s
    ensures KeySet(s) == KeySet(RemoveKey(s, Key(x))) + {Key(x)}
  {
  }

  lemma KeySetCons(x: Literal, r: seq<Literal>)
    ensures KeySet([x] + r) == {Key(x)} + KeySet(r)
  {
    assert forall l :: l in [x] + r <==> l == x || l in r;
  }

  /** A literal whose key is new can go in front of a distinct sequence. */
  lemma DistinctCons(x: Literal, r: seq<Literal>)
    requires Distinct(r) && forall l :: l in r ==> Key(l) != Key(x)
    ensures Distinct([x] + r)
  {
    var s := [x] + r;
    forall i, j | 0 <= i < j < |s| ensures Key(s[i]) != Key(s[j]) {
      assert s[j] == r[j - 1];
      if i > 0 {
        assert s[i] == r[i - 1];
      } else {
        assert r[j - 1] in r;
      }
    }
  }

  /** If some order `w` of the literals is valid from `g0`, and everything of
      `w` already placed has its outputs bound, some pending literal is
      ready. */
  lemma {:induction false} SomeReady(w: seq<Literal>, g0: set<Arg>, pending: seq<Literal>, grounded: set<Arg>)
    requires ValidFrom(g0, w) && g0 <= grounded
    requires forall l :: l in pending ==> l in w
    requires forall j :: 0 <= j < |w| && w[j] !in pending ==> Outputs(w[j]) <= grounded
    requires |pending| > 0
    ensures exists l :: l in pending && Ready(l, grounded)
    decreases |w|
  {
    assert pending[0] in w;
    if w[0] !in pending {
      forall j | 0 <= j < |w[1..]| && w[1..][j] !in pending
        ensures Outputs(w[1..][j]) <= grounded
      {
        assert w[1..][j] == w[j + 1];
      }
      SomeReady(w[1..], g0 + Outputs(w[0]), pending, grounded);
    }
  }

  /** The greedy loop never gets stuck while a valid order of what is left
      exists: binding more variables never makes a literal unready. */
  lemma {:induction false} PlaceComplete(w: seq<Literal>, g0: set<Arg>, pending: seq<Literal>,
                                         headPred: string, grounded: set<Arg>)
    requires ValidFrom(g0, w) && g0 <= grounded && Distinct(pending)
    requires forall l :: l in pending ==> l in w
    requires forall j :: 0 <= j < |w| && w[j] !in pending ==> Outputs(w[j]) <= grounded
    ensures Place(pending, headPred, grounded).Ok?
    decreases |pending|
  {
    if |pending| > 0 {
      SomeReady(w, g0, pending, grounded);
      var l :| l in pending && Ready(l, grounded);
      var i := Select(pending, headPred, grounded).value;
      var s := pending[i];
      var rem := RemoveKey(pending, Key(s));
      var g' := grounded + Outputs(s);
      forall j | 0 <= j < |w| && w[j] !in rem
        ensures Outputs(w[j]) <= g'
      {
        if w[j] in pending {
          var k :| 0 <= k < |pending| && pending[k] == w[j];
          assert Key(pending[k]) == Key(s);
          assert k == i;
        }
      }
      PlaceComplete(w, g0, rem, headPred, g');
    }
  }

  // ---------------------------------------------------------------------------
  // to_ordered
  // ---------------------------------------------------------------------------

  /** `Clause.to_ordered`. The early `head.inputs == []` return compares a
      frozenset with a list and never fires; a headless clause raises when
      `head.inputs` is read. */
  function ToOrdered(c: Clause): (r: Result<Clause>)
    ensures c.head.None? ==> r == Err(AttributeError)
    ensures c.head.Some? && r.Err? ==> r.error == OrderingError
    ensures r.Ok? ==> r.value.head == c.head
  {
    match c.head
    case None => Err(AttributeError)
    case Some(h) =>
      var placed := Place(Dedup(c.body), h.pred, Inputs(h));
      if placed.Err? then Err(placed.error) else Ok(Clause(c.head, placed.value))
  }

  /** `w` lists the distinct body literals of `c` in an order where each one
      is ready when placed, starting from the head's inputs. */
  predicate ValidOrderOf(c: Clause, w: seq<Literal>) {
    && c.head.Some?
    && (forall l :: l in w ==> l in Dedup(c.body))
    && (forall l :: l in Dedup(c.body) ==> l in w)
    && ValidFrom(Inputs(c.head.value), w)
  }

  /** A reordered body is a valid order of the original body's literals, one
      per key. */
  lemma ToOrderedSound(c: Clause)
    requires ToOrdered(c).Ok?
    ensures ValidOrderOf(c, ToOrdered(c).value.body)
    ensures Distinct(ToOrdered(c).value.body)
    ensures KeySet(ToOrdered(c).value.body) == KeySet(c.body)
  {
    var h := c.head.value;
    var pending := Dedup(c.body);
    PlaceSound(pending, h.pred, Inputs(h));
    var out := ToOrdered(c).value.body;
    forall l | l in pending ensures l in out {
      assert Key(l) in KeySet(out);
      var m :| m in out && Key(m) == Key(l);
      var i :| 0 <= i < |pending| && pending[i] == l;
      var k :| 0 <= k < |pending| && pending[k] == m;
      assert i == k;
    }
  }

  /** `to_ordered` raises only when no valid order exists (the message it
      builds names `self` inside a static method, so the error is a `NameError`
      rather than the intended `ValueError`). */
  lemma ToOrderedComplete(c: Clause, w: seq<Literal>)
    requires ValidOrderOf(c, w)
    ensures ToOrdered(c).Ok?
  {
    var h := c.head.value;
    PlaceComplete(w, Inputs(h), Dedup(c.body), h.pred, Inputs(h));
  }

  /** Ordering succeeds exactly for headed clauses whose body has a valid
      order. */
  lemma ToOrderedSucceedsIff(c: Clause)
    ensures ToOrdered(c).Ok? <==> exists w :: ValidOrderOf(c, w)
  {
    if ToOrdered(c).Ok? {
      ToOrderedSound(c);
    }
    if w :| ValidOrderOf(c, w) {
      ToOrderedComplete(c, w);
    }
  }

  lemma {:induction false} NoInputsValid(g: set<Arg>, w: seq<Literal>)
    requires forall l :: l in w ==> Inputs(l) == {}
    ensures ValidFrom(g, w)
    decreases |w|
  {
    if |w| > 0 {
      assert w[0] in w;
      assert forall l :: l in w[1..] ==> l in w;
      NoInputsValid(g + Outputs(w[0]), w[1..]);
    }
  }

  /** A clause whose body literals carry no '+' direction (for instance every
      clause the generator decodes, whose directions are all unknown) is
      always ordered. */
  lemma NoInputsAlwaysOrdered(c: Clause)
    requires c.head.Some?
    requires forall l :: l in c.body ==> Inputs(l) == {}
    ensures ToOrdered(c).Ok?
  {
    var w := Dedup(c.body);
    NoInputsValid(Inputs(c.head.value), w);
    ToOrderedComplete(c, w);
  }
}
