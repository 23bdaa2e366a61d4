/** The element-id generator of the frontend (frontend/src/app/hooks/useId.tsx):
    a module-level counter bumped once per id. */
module IdCounter {
  import opened Common

  const DefaultPrefix := "tulip-id-"

  /** The id handed out when the counter reaches `n`. */
  function IdOf(prefix: string, n: nat): (r: string)
    ensures |r| > |prefix| && r[..|prefix|] == prefix
  {
    prefix + NatToString(n)
  }

  /** The module-level `idCount`, as an object. */
  class IdGenerator {
    var idCount: nat

    constructor ()
      ensures idCount == 0
    {
      idCount := 0;
    }

    /** `generateId(prefix = 'tulip-id-')`; `None` is an omitted prefix. */
    method GenerateId(prefix: Option<string>) returns (id: string)
      modifies this
      ensures idCount == old(idCount) + 1
      ensures id == IdOf(if prefix.Some? then prefix.value else DefaultPrefix, idCount)
    {
      var p := if prefix.Some? then prefix.value else DefaultPrefix;
      idCount := idCount + 1;
      id := p + NatToString(idCount);
    }
  }

  /** Two counter values give two ids under the same prefix. */
  lemma IdsDistinct(prefix: string, m: nat, n: nat)
    requires m != n
    ensures IdOf(prefix, m) != IdOf(prefix, n)
  {
    NatToStringInjective(m, n);
    assert IdOf(prefix, m)[|prefix|..] == NatToString(m);
    assert IdOf(prefix, n)[|prefix|..] == NatToString(n);
  }

  /** The ids of successive calls starting from counter value `start`, each
      with its own prefix. */
  function Ids(start: nat, prefixes: seq<string>): (r: seq<string>)
    ensures |r| == |prefixes|
    ensures forall i :: 0 <= i < |r| ==> r[i] == IdOf(prefixes[i], start + i + 1)
  {
    if prefixes == [] then []
    else Ids(start, prefixes[..|prefixes| - 1]) + [IdOf(prefixes[|prefixes| - 1], start + |prefixes|)]
  }

  /** Of any run of calls, two with the same prefix never return the same
      id. */
  lemma SamePrefixUnique(start: nat, prefixes: seq<string>, i: nat, j: nat)
    requires i < j < |prefixes| && prefixes[i] == prefixes[j]
    ensures Ids(start, prefixes)[i] != Ids(start, prefixes)[j]
  {
    IdsDistinct(prefixes[i], start + i + 1, start + j + 1);
  }
}
