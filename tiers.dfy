/** The retry loop of `Project#tiers`: each pass builds a `Kickstarter::Tier`
    for every reward element in order, appending it to `results`. A
    `Timeout::Error` during a pass ends that pass and starts the next one,
    up to three passes, and `results` is not cleared in between. A tier is
    modelled by the reward element it is built from; whether building tier j
    in pass p times out is an oracle, `out(p, j)`. */
module Tiers {

  /** `retry if retries < 3`: three passes in all. */
  const MaxPasses: nat := 3

  /** Building tier j in pass p times out. */
  predicate Fails(out: (nat, nat) -> bool, pass: nat, j: nat)
  {
    out(pass, j)
  }

  /** Where pass `pass` stops, looking from element i on: the first element
      whose tier times out, or n when none does. */
  function PassEnd(out: (nat, nat) -> bool, pass: nat, n: nat, i: nat): (r: nat)
    requires i <= n
    decreases n - i
    ensures i <= r <= n
    ensures forall j :: i <= j < r ==> !Fails(out, pass, j)
    ensures r < n ==> Fails(out, pass, r)
  {
    if i == n then n
    else if Fails(out, pass, i) then i
    else PassEnd(out, pass, n, i + 1)
  }

  /** The results after passes `pass` and later, `acc` holding what the
      earlier passes appended. */
  function Collect(nodes: seq<string>, out: (nat, nat) -> bool, pass: nat, acc: seq<string>): (r: seq<string>)
    requires pass < MaxPasses
    decreases MaxPasses - pass
    ensures |acc| <= |r| <= |acc| + (MaxPasses - pass) * |nodes|
    ensures r[..|acc|] == acc
    ensures forall k :: |acc| <= k < |r| ==> r[k] in nodes
  {
    var c := PassEnd(out, pass, |nodes|, 0);
    if c == |nodes| then acc + nodes
    else if pass + 1 < MaxPasses then Collect(nodes, out, pass + 1, acc + nodes[..c])
    else acc + nodes[..c]
  }

  /** A pass that stops at element i (all of them, or the first whose tier
      times out) either ends the loop or hands what it appended to the next
      pass. */
  lemma PassStops(nodes: seq<string>, out: (nat, nat) -> bool, pass: nat, acc: seq<string>, i: nat)
    requires pass < MaxPasses && i <= |nodes|
    requires forall j :: 0 <= j < i ==> !Fails(out, pass, j)
    requires i < |nodes| ==> Fails(out, pass, i)
    ensures i == |nodes| ==> Collect(nodes, out, pass, acc) == acc + nodes[..i]
    ensures i < |nodes| && pass + 1 < MaxPasses ==> Collect(nodes, out, pass, acc) == Collect(nodes, out, pass + 1, acc + nodes[..i])
    ensures i < |nodes| && pass + 1 == MaxPasses ==> Collect(nodes, out, pass, acc) == acc + nodes[..i]
  {
    var c := PassEnd(out, pass, |nodes|, 0);
    assert c == i;
    assert nodes[..|nodes|] == nodes;
  }

  /** One pass of the loop: build tiers in order until one times out. */
  method BuildPass(nodes: seq<string>, out: (nat, nat) -> bool, pass: nat) returns (built: seq<string>, i: nat)
    ensures i <= |nodes| && built == nodes[..i]
    ensures forall j :: 0 <= j < i ==> !Fails(out, pass, j)
    ensures i < |nodes| ==> Fails(out, pass, i)
  {
    built := [];
    i := 0;
    while i < |nodes| && !Fails(out, pass, i)
      invariant i <= |nodes| && built == nodes[..i]
      invariant forall j :: 0 <= j < i ==> !Fails(out, pass, j)
    {
      built := built + [nodes[i]];
      i := i + 1;
    }
  }

  /** `tiers`: the results of up to three passes over the reward elements. */
  function TierList(nodes: seq<string>, out: (nat, nat) -> bool): (r: seq<string>)
    ensures |r| <= MaxPasses * |nodes|
    ensures forall k :: 0 <= k < |r| ==> r[k] in nodes
  {
    Collect(nodes, out, 0, [])
  }

  /** A pass with no time-out ends the loop with every element appended. */
  lemma CleanPass(nodes: seq<string>, out: (nat, nat) -> bool, pass: nat, acc: seq<string>)
    requires pass < MaxPasses
    requires forall j :: 0 <= j < |nodes| ==> !Fails(out, pass, j)
    ensures Collect(nodes, out, pass, acc) == acc + nodes
  {
  }

  /** When nothing times out in the first pass, the result is one tier per
      reward element, in order. */
  lemma NoTimeOut(nodes: seq<string>, out: (nat, nat) -> bool)
    requires forall j :: 0 <= j < |nodes| ==> !Fails(out, 0, j)
    ensures TierList(nodes, out) == nodes
  {
    CleanPass(nodes, out, 0, []);
  }

  /** When some pass runs clean, the result ends with every element, in order. */
  lemma {:induction false} EndsWithAll(nodes: seq<string>, out: (nat, nat) -> bool, pass: nat, acc: seq<string>, clean: nat)
    requires pass <= clean < MaxPasses
    requires forall j :: 0 <= j < |nodes| ==> !Fails(out, clean, j)
    ensures var r := Collect(nodes, out, pass, acc);
      |r| >= |nodes| && r[|r| - |nodes|..] == nodes
    decreases MaxPasses - pass
  {
    var c := PassEnd(out, pass, |nodes|, 0);
    if c == |nodes| {
    } else if pass == clean {
      CleanPass(nodes, out, pass, acc);
    } else {
      EndsWithAll(nodes, out, pass + 1, acc + nodes[..c], clean);
    }
  }

  /** A time-out keeps what the interrupted pass appended: with two rewards
      a and b, and a time-out on b in the first pass only, the result is
      [a, a, b]. */
  lemma RetryKeepsPartialPass(a: string, b: string, out: (nat, nat) -> bool)
    requires forall p, j :: Fails(out, p, j) <==> p == 0 && j == 1
    ensures TierList([a, b], out) == [a, a, b]
  {
    var nodes := [a, b];
    assert !Fails(out, 0, 0) && Fails(out, 0, 1);
    assert PassEnd(out, 0, 2, 0) == 1;
    CleanPass(nodes, out, 1, [a]);
  }
}
