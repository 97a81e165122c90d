/**
  Address planning: the host names, private addresses and pod CIDR blocks the
  stack gives controller `i` and worker `i` (lib/kthw-stack.ts, the controller and
  worker loops). Addresses are strings: the scheme puts the index's decimal
  numeral after a fixed prefix, so index 10 and above give four-digit octets
  (`10.240.0.110`) and worker 56 gives the invalid octet `256`; nothing in the
  stack checks this, and neither does the model.
 */
module AddressPlan {
  import opened Decimal

  function ControllerName(i: nat): string {
    "controller" + NatToString(i)
  }

  function WorkerName(i: nat): string {
    "worker" + NatToString(i)
  }

  function ControllerAddress(i: nat): string {
    "10.240.0.1" + NatToString(i)
  }

  function WorkerAddress(i: nat): string {
    "10.240.0.2" + NatToString(i)
  }

  function PodCidr(i: nat): string {
    "10.200." + NatToString(i) + ".0/24"
  }

  /** A fixed prefix followed by an index's numeral determines the index. */
  lemma PrefixedNumeralInjective(prefix: string, i: nat, j: nat)
    ensures prefix + NatToString(i) == prefix + NatToString(j) <==> i == j
  {
    assert (prefix + NatToString(i))[|prefix|..] == NatToString(i);
    assert (prefix + NatToString(j))[|prefix|..] == NatToString(j);
    NatToStringInjective(i, j);
  }

  /** Controller names, and worker names, identify their index. */
  lemma NamesInjective(i: nat, j: nat)
    ensures ControllerName(i) == ControllerName(j) <==> i == j
    ensures WorkerName(i) == WorkerName(j) <==> i == j
  {
    PrefixedNumeralInjective("controller", i, j);
    PrefixedNumeralInjective("worker", i, j);
  }

  /** No controller is named like a worker. */
  lemma NamesDisjoint(i: nat, j: nat)
    ensures ControllerName(i) != WorkerName(j)
  {
    assert ControllerName(i)[0] == 'c' && WorkerName(j)[0] == 'w';
  }

  /** Controller addresses, and worker addresses, identify their index. */
  lemma AddressesInjective(i: nat, j: nat)
    ensures ControllerAddress(i) == ControllerAddress(j) <==> i == j
    ensures WorkerAddress(i) == WorkerAddress(j) <==> i == j
  {
    PrefixedNumeralInjective("10.240.0.1", i, j);
    PrefixedNumeralInjective("10.240.0.2", i, j);
  }

  /**
    No controller address equals a worker address, whatever the indices: the
    character after `10.240.0.` is `1` for controllers and `2` for workers.
   */
  lemma AddressesDisjoint(i: nat, j: nat)
    ensures ControllerAddress(i) != WorkerAddress(j)
  {
    assert ControllerAddress(i)[9] == '1' && WorkerAddress(j)[9] == '2';
  }

  /** Pod CIDR blocks identify their worker. */
  lemma PodCidrsInjective(i: nat, j: nat)
    ensures PodCidr(i) == PodCidr(j) <==> i == j
  {
    var a, b := PodCidr(i), PodCidr(j);
    assert a[7..|a| - 5] == NatToString(i);
    assert b[7..|b| - 5] == NatToString(j);
    NatToStringInjective(i, j);
  }
}
