/**
 * The add-contact form of components/AddContactModal.tsx: validation of the
 * name and public key fields, and the submission that dials the peer and
 * stores the contact. Rendering is not modelled.
 */
module AddContactModal {
  import opened Wrappers
  import opened Types
  import Text
  import Peer
  import ContactStore

  const NameRequired: string := "Name is required"
  const KeyRequired: string := "Public key is required"
  const KeyInvalid: string := "Public key is invalid"

  /** The shortest public key the form accepts, in UTF-16 code units. */
  const MinKeyLength: nat := 10

  /** The form's `errors` object: a message per field, or none. */
  datatype FormErrors = FormErrors(name: Option<string>, publicKey: Option<string>)

  /** `newErrors` as `validateForm` builds it. */
  function ValidationErrors(name: string, publicKey: string): (r: FormErrors)
    ensures r.name.Some? ==> r.name.value == NameRequired
    ensures r.publicKey.Some? ==> r.publicKey.value == KeyRequired || r.publicKey.value == KeyInvalid
    ensures r.publicKey.None? ==> Text.Trim(publicKey) != []
  {
    var key := Text.Trim(publicKey);
    var nameError := if Text.Trim(name) == [] then Some(NameRequired) else None;
    var keyError :=
      if key == [] then Some(KeyRequired)
      else if Text.Length(key) < MinKeyLength then Some(KeyInvalid)
      else None;
    FormErrors(nameError, keyError)
  }

  /**
   * Each error is reported exactly when its condition holds: the name is
   * missing when it is all whitespace, the key is missing when it is all
   * whitespace, and invalid when, trimmed, it is shorter than ten code units.
   */
  lemma ValidationErrorsWhen(name: string, publicKey: string)
    ensures var r := ValidationErrors(name, publicKey);
      && (r.name == Some(NameRequired) <==> Text.AllWhitespace(name))
      && (r.name.Some? ==> r.name == Some(NameRequired))
      && (r.publicKey == Some(KeyRequired) <==> Text.AllWhitespace(publicKey))
      && (r.publicKey == Some(KeyInvalid) <==>
            !Text.AllWhitespace(publicKey) && Text.Length(Text.Trim(publicKey)) < MinKeyLength)
      && (r.publicKey.None? <==> Text.Length(Text.Trim(publicKey)) >= MinKeyLength)
  {
    Text.TrimEmptyIff(name);
    Text.TrimEmptyIff(publicKey);
  }

  /** The form passes exactly when the name is not blank and the trimmed key has at least ten code units. */
  lemma ValidWhen(name: string, publicKey: string)
    ensures ValidationErrors(name, publicKey) == FormErrors(None, None) <==>
      !Text.AllWhitespace(name) && Text.Length(Text.Trim(publicKey)) >= MinKeyLength
  {
    ValidationErrorsWhen(name, publicKey);
  }

  /** A key of ten or more characters below U+10000, with no whitespace round it, is long enough. */
  lemma LongBasicKeyValid(name: string, publicKey: string)
    requires !Text.AllWhitespace(name)
    requires |publicKey| >= MinKeyLength
    requires !Text.IsWhitespace(publicKey[0]) && !Text.IsWhitespace(publicKey[|publicKey| - 1])
    requires forall i :: 0 <= i < |publicKey| ==> publicKey[i] as int < 0x1_0000
    ensures ValidationErrors(name, publicKey) == FormErrors(None, None)
  {
    BasicKeyLength(publicKey);
    ValidWhen(name, publicKey);
  }

  lemma BasicKeyLength(publicKey: string)
    requires |publicKey| >= MinKeyLength
    requires !Text.IsWhitespace(publicKey[0]) && !Text.IsWhitespace(publicKey[|publicKey| - 1])
    requires forall i :: 0 <= i < |publicKey| ==> publicKey[i] as int < 0x1_0000
    ensures Text.Length(Text.Trim(publicKey)) >= MinKeyLength
  {
    Text.TrimOfPadded([], publicKey, []);
    assert [] + publicKey + [] == publicKey;
    Text.LengthOfBasicText(publicKey);
  }

  /** The contact `handleSubmit` adds, given whether `connect` gave a connection. */
  function NewContact(name: string, publicKey: string, connected: bool, now: Instant): (r: Contact)
    ensures r.id == r.publicKey
    ensures r.status == Online <==> connected
    ensures r.privateKey.None? && r.avatar.None?
  {
    var key := Text.Trim(publicKey);
    Contact(key, Text.Trim(name), key, None, None, if connected then Online else Offline, Date(now))
  }

  /**
   * The contact is identified by the trimmed key, named by the trimmed name,
   * online exactly when `connect` gave a connection, and seen now. When the
   * form was valid, its name is not blank and its id has at least ten code
   * units, with nothing left to trim on either.
   */
  lemma NewContactFields(name: string, publicKey: string, connected: bool, now: Instant)
    ensures var c := NewContact(name, publicKey, connected, now);
      && c.id == c.publicKey == Text.Trim(publicKey)
      && c.name == Text.Trim(name)
      && (c.status == Online <==> connected)
      && c.privateKey.None? && c.avatar.None? && c.lastSeen == Date(now)
    ensures ValidationErrors(name, publicKey) == FormErrors(None, None) ==>
      var c := NewContact(name, publicKey, connected, now);
      && c.name != [] && Text.Trim(c.name) == c.name
      && Text.Length(c.id) >= MinKeyLength && Text.Trim(c.id) == c.id
  {
    ValidationErrorsWhen(name, publicKey);
    Text.TrimEmptyIff(name);
    Text.TrimIdempotent(name);
    Text.TrimIdempotent(publicKey);
  }

  /** The form component's state. */
  class Form {
    var name: string
    var publicKey: string
    var loading: bool
    var errors: FormErrors

    constructor ()
      ensures name == "" && publicKey == "" && !loading && errors == FormErrors(None, None)
    {
      name := "";
      publicKey := "";
      loading := false;
      errors := FormErrors(None, None);
    }

    /** `validateForm()`: records the errors and reports whether there are none. */
    method ValidateForm() returns (valid: bool)
      modifies this
      ensures errors == ValidationErrors(name, publicKey)
      ensures valid <==> errors == FormErrors(None, None)
      ensures name == old(name) && publicKey == old(publicKey) && loading == old(loading)
    {
      errors := ValidationErrors(name, publicKey);
      valid := errors == FormErrors(None, None);
    }

    /**
     * `handleSubmit()`. An invalid form only records its errors. A valid one
     * dials the trimmed key, adds the contact to the store, clears both fields
     * and ends not loading. `now` is the clock reading for `lastSeen`;
     * `dialThrows` and `failing` are passed on to `connect`.
     */
    method HandleSubmit<D(==)>(peer: Peer.PeerConnection<D>, store: ContactStore.Store, now: Instant,
                               dialThrows: bool, failing: set<Peer.Listener>)
      returns (added: Option<Contact>)
      requires peer.Valid()
      modifies this, peer, store
      ensures peer.Valid()
      ensures errors == ValidationErrors(old(name), old(publicKey))
      ensures added.None? <==> errors != FormErrors(None, None)
      ensures added.None? ==>
        && store.contacts == old(store.contacts)
        && name == old(name) && publicKey == old(publicKey) && loading == old(loading)
        && unchanged(peer)
      ensures added.Some? ==>
        && added.value == NewContact(old(name), old(publicKey), old(peer.peer).Some? && !dialThrows, now)
        && store.contacts == old(store.contacts) + [added.value]
        && name == "" && publicKey == "" && !loading
      // the trimmed key is dialled: `connect` registers a new connection under it, or changes nothing
      ensures added.Some? ==>
        var key := Text.Trim(old(publicKey));
        && peer.peer == old(peer.peer) && peer.eventListeners == old(peer.eventListeners)
        && peer.initializing == old(peer.initializing)
        && peer.initializationFailed == old(peer.initializationFailed)
        && peer.bringUpPending == old(peer.bringUpPending)
        && (old(peer.peer).None? || dialThrows ==>
              peer.connections == old(peer.connections) && peer.order == old(peer.order)
              && peer.handled == old(peer.handled))
        && (old(peer.peer).Some? && !dialThrows ==>
              && key in peer.connections
              && fresh(peer.connections[key]) && peer.connections[key].peer == key && !peer.connections[key].open
              && peer.connections == old(peer.connections)[key := peer.connections[key]]
              && peer.order == (if key in old(peer.connections) then old(peer.order) else old(peer.order) + [key])
              && peer.handled == old(peer.handled) + {peer.connections[key]})
    {
      var valid := ValidateForm();
      if !valid {
        return None;
      }
      var enteredName, enteredKey := name, publicKey;
      ghost var online := peer.peer.Some? && !dialThrows;
      ghost var recorded, contacts := errors, store.contacts;
      loading := true;
      var connection, _ := peer.Connect(Text.Trim(enteredKey), dialThrows, failing);
      assert connection != null <==> online;
      var contact := NewContact(enteredName, enteredKey, connection != null, now);
      store.AddContact(contact);
      assert store.contacts == contacts + [contact];
      name := "";
      publicKey := "";
      loading := false;
      assert errors == recorded;
      return Some(contact);
    }
  }
}
