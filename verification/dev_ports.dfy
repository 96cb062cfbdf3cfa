/** The port bookkeeping of the `dev` command: each tunnel gets the port
    after the last one handed out, starting at 9090. */
module DevPorts {

  /** The port the list starts from when it is empty or ends in 0. */
  const BasePort := 9089

  /** `getNextActivePort()`: the new port and the list after the push. A
      last port of 0 is falsy and counts as no port at all. */
  function NextActivePort(ports: seq<int>): (r: (int, seq<int>))
    ensures r.1 == ports + [r.0]
    ensures r.1[|r.1| - 1] == r.0
  {
    var last := if |ports| > 0 && ports[|ports| - 1] != 0 then ports[|ports| - 1] else BasePort;
    (last + 1, ports + [last + 1])
  }

  /** The list after `n` calls following `init()`. */
  function Handed(n: nat): seq<int> {
    if n == 0 then [] else NextActivePort(Handed(n - 1)).1
  }

  /** The first call returns 9090; every later one the previous port plus one. */
  lemma NextAfter(ports: seq<int>)
    ensures ports == [] ==> NextActivePort(ports).0 == 9090
    ensures |ports| > 0 && ports[|ports| - 1] != 0 ==> NextActivePort(ports).0 == ports[|ports| - 1] + 1
  {
  }

  /** After `n` calls the list is 9090, 9091, … 9089 + n. */
  lemma {:induction false} HandedConsecutive(n: nat)
    ensures |Handed(n)| == n
    ensures forall i :: 0 <= i < n ==> Handed(n)[i] == 9090 + i
  {
    if n > 0 {
      HandedConsecutive(n - 1);
      var prev := Handed(n - 1);
      if n > 1 {
        assert prev[|prev| - 1] == 9090 + (n - 2);
      }
      assert Handed(n) == prev + [9090 + (n - 1)];
    }
  }

  /** The ports handed out are strictly increasing, so no port is handed
      out twice. */
  lemma HandedIncreasing(n: nat)
    ensures forall i, j :: 0 <= i < j < |Handed(n)| ==> Handed(n)[i] < Handed(n)[j]
  {
    HandedConsecutive(n);
  }
}
