/** The linked lists of addresses that the built-in contracts keep. */
module LinkedLists {
  import opened Types

  function AddressAt(chain: seq<Address>, i: nat): Address {
    if i < |chain| then chain[i] else 0
  }

  /** `chain` is the linked list that starts at `first`; address zero ends it. */
  predicate Linked(next: Address -> Address, first: Address, chain: seq<Address>) {
    && (forall i :: 0 <= i < |chain| ==> chain[i] != 0 && next(chain[i]) == AddressAt(chain, i + 1))
    && first == AddressAt(chain, 0)
  }
}
