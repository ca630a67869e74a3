/**
 * The retained "Online" announcement on the MQTT will topic
 * (IOT::PublishOnline in code/ESP32/main/IOT.cpp, IOT::Online in
 * code/ESP32/src/IOT.cpp): each call publishes only while the latch is
 * clear, and the latch takes the publish's success.
 */
module Announce {

  /** One call: whether a publish was attempted, and the latch afterwards. */
  datatype Latch = Latch(attempted: bool, published: bool)

  /** `result` is what the publish would report if attempted. */
  function OnlineStep(published: bool, result: bool): (l: Latch)
    ensures l.attempted == !published
    ensures l.published == (published || result)
  {
    if published then Latch(false, true) else Latch(true, result)
  }

  /** The number of publishes over a run of calls, given each call's would-be result. */
  function Attempts(published: bool, results: seq<bool>): nat
    decreases |results|
  {
    if results == [] then 0
    else
      var l := OnlineStep(published, results[0]);
      (if l.attempted then 1 else 0) + Attempts(l.published, results[1..])
  }

  /** The index of the first successful result, or the length when none succeeds. */
  function FirstSuccess(results: seq<bool>): (k: nat)
    ensures k <= |results|
    ensures forall i :: 0 <= i < k ==> !results[i]
    ensures k < |results| ==> results[k]
  {
    if results == [] || results[0] then 0 else 1 + FirstSuccess(results[1..])
  }

  /** Once the announcement has succeeded, no further call publishes. */
  lemma {:induction false} LatchedNeverPublishes(results: seq<bool>)
    ensures Attempts(true, results) == 0
    decreases |results|
  {
    if results != [] {
      LatchedNeverPublishes(results[1..]);
    }
  }

  /** Calls publish up to and including the first success, and never after it. */
  lemma {:induction false} PublishesUntilFirstSuccess(results: seq<bool>)
    ensures Attempts(false, results)
            == if FirstSuccess(results) < |results| then FirstSuccess(results) + 1 else |results|
    decreases |results|
  {
    if results != [] {
      if results[0] {
        LatchedNeverPublishes(results[1..]);
      } else {
        PublishesUntilFirstSuccess(results[1..]);
      }
    }
  }
}
