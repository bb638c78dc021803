/**
 * Cookie consent: one of 'pending', 'accepted' or 'rejected', read from
 * browser storage under one key when the service starts and written back
 * when the user accepts or rejects.  Storage is a string-to-string map that
 * may be unavailable (outside a browser); injecting the analytics script is
 * modelled by counting the injections.
 */
module CookieConsent {
  import opened Wrappers

  const StorageKey: string := "cookie-consent"
  const Pending: string := "pending"
  const Accepted: string := "accepted"
  const Rejected: string := "rejected"

  /**
   * `loadConsent()`: the stored string when storage exists and holds a
   * non-empty value under the key, otherwise 'pending'.  The stored value is
   * not checked against the three states.
   */
  function LoadConsent(storage: Option<map<string, string>>): (state: string)
    ensures state != ""
    ensures storage.Some? && StorageKey in storage.value && storage.value[StorageKey] != "" ==>
              state == storage.value[StorageKey]
    ensures state != Pending ==>
              storage.Some? && StorageKey in storage.value && storage.value[StorageKey] == state
  {
    if storage.None? then Pending
    else if StorageKey in storage.value && storage.value[StorageKey] != "" then storage.value[StorageKey]
    else Pending
  }

  /** A value written under the key is what the next service reads. */
  lemma ReloadReadsLastWrite(m: map<string, string>, v: string)
    requires v != ""
    ensures LoadConsent(Some(m[StorageKey := v])) == v
  {
  }

  /** The stored string is taken as it is, even one outside the three states. */
  lemma StoredValueIsNotValidated()
    ensures LoadConsent(Some(map[StorageKey := "maybe"])) == "maybe"
  {
  }

  /** A user choice. */
  datatype Choice = Accept | Reject

  /** The state a choice sets. */
  function ChosenState(c: Choice): string
  {
    match c
    case Accept => Accepted
    case Reject => Rejected
  }

  /** The state after a sequence of choices, starting from `state`. */
  function StateAfter(state: string, choices: seq<Choice>): string
    decreases |choices|
  {
    if |choices| == 0 then state else StateAfter(ChosenState(choices[0]), choices[1..])
  }

  /** Any order of choices is allowed and the last one wins. */
  lemma {:induction false} LastChoiceWins(state: string, choices: seq<Choice>)
    requires |choices| > 0
    ensures StateAfter(state, choices) == ChosenState(choices[|choices| - 1])
    decreases |choices|
  {
    if |choices| > 1 {
      LastChoiceWins(ChosenState(choices[0]), choices[1..]);
    }
  }

  class CookieConsentService {
    /** `localStorage`, or `None` where it is undefined. */
    var storage: Option<map<string, string>>
    /** Whether `window` and `document` exist, the guard of `loadAnalytics`. */
    const domAvailable: bool
    /** `consentState()`. */
    var consentState: string
    /** How many times the analytics script has been injected. */
    var analyticsLoads: nat

    constructor (storage: Option<map<string, string>>, domAvailable: bool)
      ensures this.storage == storage && this.domAvailable == domAvailable
      ensures consentState == LoadConsent(storage) && analyticsLoads == 0
    {
      this.storage := storage;
      this.domAvailable := domAvailable;
      consentState := LoadConsent(storage);
      analyticsLoads := 0;
    }

    /** `loadAnalytics()`: injects the script when a DOM exists. */
    method LoadAnalytics()
      modifies this
      ensures analyticsLoads == old(analyticsLoads) + (if domAvailable then 1 else 0)
      ensures storage == old(storage) && consentState == old(consentState)
    {
      if domAvailable {
        analyticsLoads := analyticsLoads + 1;
      }
    }

    /** `accept()`: state and stored value become 'accepted', then analytics loads. */
    method Accept()
      modifies this
      ensures consentState == Accepted == StateAfter(old(consentState), [Choice.Accept])
      ensures storage == if old(storage).Some? then Some(old(storage).value[StorageKey := Accepted]) else None
      ensures analyticsLoads == old(analyticsLoads) + (if domAvailable then 1 else 0)
      ensures LoadConsent(storage) == (if storage.Some? then Accepted else Pending)
    {
      consentState := Accepted;
      if storage.Some? {
        storage := Some(storage.value[StorageKey := Accepted]);
      }
      LoadAnalytics();
    }

    /** `reject()`: state and stored value become 'rejected'; analytics is untouched. */
    method Reject()
      modifies this
      ensures consentState == Rejected == StateAfter(old(consentState), [Choice.Reject])
      ensures storage == if old(storage).Some? then Some(old(storage).value[StorageKey := Rejected]) else None
      ensures analyticsLoads == old(analyticsLoads)
      ensures LoadConsent(storage) == (if storage.Some? then Rejected else Pending)
    {
      consentState := Rejected;
      if storage.Some? {
        storage := Some(storage.value[StorageKey := Rejected]);
      }
    }

    /** `initializeIfConsented()`: loads analytics only when the state is 'accepted'. */
    method InitializeIfConsented()
      modifies this
      ensures storage == old(storage) && consentState == old(consentState)
      ensures analyticsLoads ==
                old(analyticsLoads) + (if consentState == Accepted && domAvailable then 1 else 0)
    {
      if consentState == Accepted {
        LoadAnalytics();
      }
    }
  }
}
