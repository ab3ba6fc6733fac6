/**
 * `Switch` of `switch-case.tsx`: among its children, render the children of
 * the first `Case` whose `value` is strictly equal (`===`) to the switch's
 * value; failing that, those of the last `Default`; failing that, nothing.
 *
 * The rendered content is a type parameter `N`. `Children.toArray` is the
 * input list; elements of any other component type are `Other`.
 */
module SwitchCase {
  import opened Wrappers
  import opened Seqs

  /** A JavaScript number: a real value, an infinity or NaN (`+0` and `-0` are both `Finite(0.0)`, as `===` sees them). */
  datatype Num = Finite(x: real) | PosInfinity | NegInfinity | NaN

  /** `boolean | number | string`. */
  datatype Value = Bool(b: bool) | Number(n: Num) | Str(s: string)

  /** One child of the switch, after `Children.toArray`. */
  datatype Child<N> =
    | NonElement             // a string or number child: `isValidElement` is false
    | Other                  // an element of some other component
    | Case(value: Value, body: N)
    | Default(body: N)

  /** `===` on the three value types: no coercion between types, and NaN equals nothing. */
  predicate StrictEquals(a: Value, b: Value) {
    match (a, b)
    case (Bool(x), Bool(y)) => x == y
    case (Number(x), Number(y)) => x == y && !x.NaN?
    case (Str(x), Str(y)) => x == y
    case _ => false
  }

  predicate Matches<N>(c: Child<N>, value: Value) {
    c.Case? && StrictEquals(c.value, value)
  }

  predicate IsElement<N>(c: Child<N>) {
    !c.NonElement?
  }

  /** The body of the first `Case` of `cs` that matches `value`. */
  function FirstCase<N>(cs: seq<Child<N>>, value: Value): Option<N>
    decreases |cs|
  {
    if cs == [] then None
    else match FirstCase(cs[..|cs| - 1], value)
      case Some(b) => Some(b)
      case None => if Matches(cs[|cs| - 1], value) then Some(cs[|cs| - 1].body) else None
  }

  /** The body of the last `Default` of `cs`. */
  function LastDefault<N>(cs: seq<Child<N>>): Option<N>
    decreases |cs|
  {
    if cs == [] then None
    else if cs[|cs| - 1].Default? then Some(cs[|cs| - 1].body)
    else LastDefault(cs[..|cs| - 1])
  }

  /** What the switch renders: the first matching case, else the last default, else nothing. */
  function Selected<N>(cs: seq<Child<N>>, value: Value): Option<N> {
    match FirstCase(cs, value)
    case Some(b) => Some(b)
    case None => LastDefault(cs)
  }

  /** `Switch`: the loop over the children, returning early on the first match. */
  method Switch<N>(children: seq<Child<N>>, value: Value) returns (rendered: Option<N>)
    ensures rendered == Selected(children, value)
  {
    var defaultNode: Option<N> := None;
    for i := 0 to |children|
      invariant FirstCase(children[..i], value) == None
      invariant defaultNode == LastDefault(children[..i])
    {
      var child := children[i];
      assert children[..i + 1][..i] == children[..i];
      if child.NonElement? {
        continue;
      }
      if child.Case? && StrictEquals(child.value, value) {
        assert FirstCase(children[..i + 1], value) == Some(child.body);
        FirstCasePrefix(children, value, i + 1);
        return Some(child.body);
      }
      if child.Default? {
        defaultNode := Some(child.body);
      }
    }
    assert children[..|children|] == children;
    rendered := defaultNode;
  }

  /** A match in a prefix is the match of the whole list. */
  lemma {:induction false} FirstCasePrefix<N>(cs: seq<Child<N>>, value: Value, n: nat)
    requires n <= |cs| && FirstCase(cs[..n], value).Some?
    ensures FirstCase(cs, value) == FirstCase(cs[..n], value)
    decreases |cs|
  {
    if n < |cs| {
      assert cs[..|cs| - 1][..n] == cs[..n];
      FirstCasePrefix(cs[..|cs| - 1], value, n);
    } else {
      assert cs[..n] == cs;
    }
  }

  /** `FirstCase` is the body of the lowest-indexed matching child, and is `None` exactly when no child matches. */
  lemma {:induction false} FirstCaseSpec<N>(cs: seq<Child<N>>, value: Value)
    ensures FirstCase(cs, value) == None <==> forall i :: 0 <= i < |cs| ==> !Matches(cs[i], value)
    ensures forall i ::
      (0 <= i < |cs| && Matches(cs[i], value) && forall j :: 0 <= j < i ==> !Matches(cs[j], value))
      ==> FirstCase(cs, value) == Some(cs[i].body)
    decreases |cs|
  {
    if cs != [] {
      var init := cs[..|cs| - 1];
      FirstCaseSpec(init, value);
      assert forall i :: 0 <= i < |init| ==> init[i] == cs[i];
    }
  }

  /** `LastDefault` is the body of the highest-indexed `Default`, and is `None` exactly when there is none. */
  lemma {:induction false} LastDefaultSpec<N>(cs: seq<Child<N>>)
    ensures LastDefault(cs) == None <==> forall i :: 0 <= i < |cs| ==> !cs[i].Default?
    ensures forall i ::
      (0 <= i < |cs| && cs[i].Default? && forall j :: i < j < |cs| ==> !cs[j].Default?)
      ==> LastDefault(cs) == Some(cs[i].body)
    decreases |cs|
  {
    if cs != [] {
      var init := cs[..|cs| - 1];
      LastDefaultSpec(init);
      assert forall i :: 0 <= i < |init| ==> init[i] == cs[i];
    }
  }

  /**
   * When some `Case` matches, the switch renders the first such case, also when
   * it comes after a `Default`.
   */
  lemma FirstMatchingCaseWins<N>(cs: seq<Child<N>>, value: Value, i: nat)
    requires i < |cs| && Matches(cs[i], value)
    requires forall j :: 0 <= j < i ==> !Matches(cs[j], value)
    ensures Selected(cs, value) == Some(cs[i].body)
  {
    FirstCaseSpec(cs, value);
  }

  /** With no matching `Case`, the last `Default` is rendered: later defaults override earlier ones. */
  lemma LastDefaultWhenNoMatch<N>(cs: seq<Child<N>>, value: Value, i: nat)
    requires forall k :: 0 <= k < |cs| ==> !Matches(cs[k], value)
    requires i < |cs| && cs[i].Default?
    requires forall j :: i < j < |cs| ==> !cs[j].Default?
    ensures Selected(cs, value) == Some(cs[i].body)
  {
    FirstCaseSpec(cs, value);
    LastDefaultSpec(cs);
  }

  /** The switch renders nothing exactly when no `Case` matches and there is no `Default`. */
  lemma NothingIff<N>(cs: seq<Child<N>>, value: Value)
    ensures Selected(cs, value) == None <==>
      (forall k :: 0 <= k < |cs| ==> !Matches(cs[k], value) && !cs[k].Default?)
  {
    FirstCaseSpec(cs, value);
    LastDefaultSpec(cs);
  }

  /** Non-element children never affect the result. */
  lemma NonElementsIgnored<N>(cs: seq<Child<N>>, value: Value)
    ensures Selected(Filter(cs, IsElement), value) == Selected(cs, value)
  {
    FirstCaseFiltered(cs, value);
    LastDefaultFiltered(cs);
  }

  /** Appending a child: the first match so far stays; otherwise the new child is the match if it matches. */
  lemma FirstCaseSnoc<N>(cs: seq<Child<N>>, x: Child<N>, value: Value)
    ensures FirstCase(cs + [x], value)
      == if FirstCase(cs, value).Some? then FirstCase(cs, value)
         else if Matches(x, value) then Some(x.body) else None
  {
    assert (cs + [x])[..|cs|] == cs;
  }

  lemma {:induction false} FirstCaseFiltered<N>(cs: seq<Child<N>>, value: Value)
    ensures FirstCase(Filter(cs, IsElement), value) == FirstCase(cs, value)
    decreases |cs|
  {
    if cs != [] {
      var init := cs[..|cs| - 1];
      var last := cs[|cs| - 1];
      assert cs == init + [last];
      FirstCaseFiltered(init, value);
      FilterAppend(init, last, IsElement);
      FirstCaseSnoc(init, last, value);
      var f := Filter(init, IsElement);
      if IsElement(last) {
        FirstCaseSnoc(f, last, value);
      } else {
        assert f + [] == f;
      }
    }
  }

  lemma {:induction false} LastDefaultFiltered<N>(cs: seq<Child<N>>)
    ensures LastDefault(Filter(cs, IsElement)) == LastDefault(cs)
    decreases |cs|
  {
    if cs != [] {
      var init := cs[..|cs| - 1];
      var last := cs[|cs| - 1];
      LastDefaultFiltered(init);
      var f := Filter(init, IsElement);
      if IsElement(last) {
        assert Filter(cs, IsElement) == f + [last];
        assert (f + [last])[..|f + [last]| - 1] == f;
      } else {
        assert Filter(cs, IsElement) == f;
      }
    }
  }

  /** Matching uses `===`: the number 1 never selects `Case "1"`, nor `true` selects `Case "true"`. */
  lemma NoCoercion()
    ensures !StrictEquals(Number(Finite(1.0)), Str("1"))
    ensures !StrictEquals(Bool(true), Str("true"))
    ensures !StrictEquals(Number(NaN), Number(NaN))
    ensures StrictEquals(Str("1"), Str("1"))
  {
  }
}
