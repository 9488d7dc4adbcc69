/** The ingress claim (forwarder/forwarder.go, claimIngressIn) against a first-claim-wins store. */
module Claims {

  /** The store after the claim, and whether it was won; without a store every claim is. */
  function Claim<K>(dedup: bool, store: set<K>, key: K): (set<K>, bool) {
    if !dedup then (store, true) else (store + {key}, key !in store)
  }
}
