/** The contact store of store/contactStore.ts: an address book kept as a list. */
module ContactStore {
  import opened Wrappers
  import opened Types

  /**
   * `Partial<Contact>`: the fields an update carries. For the optional fields
   * `Some(None)` is an update that sets the field to `undefined`.
   */
  datatype ContactUpdate = ContactUpdate(
    id: Option<string>,
    name: Option<string>,
    publicKey: Option<string>,
    privateKey: Option<Option<string>>,
    avatar: Option<Option<string>>,
    status: Option<Presence>,
    lastSeen: Option<Timestamp>)

  /** An update that carries no field. */
  const NoChanges: ContactUpdate := ContactUpdate(None, None, None, None, None, None, None)

  function Pick<T>(update: Option<T>, current: T): T
  {
    if update.Some? then update.value else current
  }

  /** `{ ...contact, ...updates }`: every field the update carries, the contact's own value for the rest. */
  function Merge(c: Contact, u: ContactUpdate): (r: Contact)
    ensures u == NoChanges ==> r == c
    ensures r.id == (if u.id.Some? then u.id.value else c.id)
  {
    Contact(Pick(u.id, c.id), Pick(u.name, c.name), Pick(u.publicKey, c.publicKey),
            Pick(u.privateKey, c.privateKey), Pick(u.avatar, c.avatar),
            Pick(u.status, c.status), Pick(u.lastSeen, c.lastSeen))
  }

  /** A merge takes exactly the fields the update carries; one with no field changes nothing. */
  lemma MergeTakesCarriedFields(c: Contact, u: ContactUpdate)
    ensures u.id.Some? ==> Merge(c, u).id == u.id.value
    ensures u.id.None? ==> Merge(c, u).id == c.id
    ensures u.name.Some? ==> Merge(c, u).name == u.name.value
    ensures u.name.None? ==> Merge(c, u).name == c.name
    ensures u.status.Some? ==> Merge(c, u).status == u.status.value
    ensures u.status.None? ==> Merge(c, u).status == c.status
    ensures u.publicKey.Some? ==> Merge(c, u).publicKey == u.publicKey.value
    ensures u.publicKey.None? ==> Merge(c, u).publicKey == c.publicKey
    ensures u.privateKey.Some? ==> Merge(c, u).privateKey == u.privateKey.value
    ensures u.privateKey.None? ==> Merge(c, u).privateKey == c.privateKey
    ensures u.avatar.Some? ==> Merge(c, u).avatar == u.avatar.value
    ensures u.avatar.None? ==> Merge(c, u).avatar == c.avatar
    ensures u.lastSeen.Some? ==> Merge(c, u).lastSeen == u.lastSeen.value
    ensures u.lastSeen.None? ==> Merge(c, u).lastSeen == c.lastSeen
    ensures Merge(c, NoChanges) == c
  {
  }

  /** Merging the same update twice is merging it once. */
  lemma MergeIdempotent(c: Contact, u: ContactUpdate)
    ensures Merge(Merge(c, u), u) == Merge(c, u)
  {
  }

  /** `contacts.filter(contact => contact.id !== id)`. */
  function Removed(contacts: seq<Contact>, id: string): (r: seq<Contact>)
    ensures |r| <= |contacts|
    ensures forall c :: c in r <==> c in contacts && c.id != id
  {
    if contacts == [] then []
    else (if contacts[0].id == id then [] else [contacts[0]]) + Removed(contacts[1..], id)
  }

  /** Removal keeps the order of what is left: it distributes over concatenation. */
  lemma {:induction false} RemovedAppend(a: seq<Contact>, b: seq<Contact>, id: string)
    ensures Removed(a + b, id) == Removed(a, id) + Removed(b, id)
  {
    if a == [] {
      assert a + b == b;
    } else {
      assert (a + b)[0] == a[0] && (a + b)[1..] == a[1..] + b;
      RemovedAppend(a[1..], b, id);
    }
  }

  /** Removing an id nobody has changes nothing. */
  lemma {:induction false} RemovedAbsent(contacts: seq<Contact>, id: string)
    requires forall i :: 0 <= i < |contacts| ==> contacts[i].id != id
    ensures Removed(contacts, id) == contacts
  {
    if contacts != [] {
      RemovedAbsent(contacts[1..], id);
      assert contacts == [contacts[0]] + contacts[1..];
    }
  }

  /** Removing twice is removing once. */
  lemma RemovedIdempotent(contacts: seq<Contact>, id: string)
    ensures Removed(Removed(contacts, id), id) == Removed(contacts, id)
  {
    var r := Removed(contacts, id);
    forall i | 0 <= i < |r| ensures r[i].id != id {
      assert r[i] in r;
    }
    RemovedAbsent(r, id);
  }

  /** Removing the id of a contact just added drops it and all others with that id, nothing else. */
  lemma RemovedAfterAdd(contacts: seq<Contact>, c: Contact)
    ensures Removed(contacts + [c], c.id) == Removed(contacts, c.id)
  {
    RemovedAppend(contacts, [c], c.id);
    assert Removed([c], c.id) == [];
    assert Removed(contacts, c.id) + [] == Removed(contacts, c.id);
  }

  /** `contacts.map(...)` of `updateContact`: each contact with the id merged with the update. */
  function Updated(contacts: seq<Contact>, id: string, u: ContactUpdate): (r: seq<Contact>)
    ensures |r| == |contacts|
    ensures forall i :: 0 <= i < |contacts| && contacts[i].id != id ==> r[i] == contacts[i]
    ensures forall i :: 0 <= i < |contacts| && contacts[i].id == id ==> r[i] == Merge(contacts[i], u)
  {
    if contacts == [] then []
    else [if contacts[0].id == id then Merge(contacts[0], u) else contacts[0]] + Updated(contacts[1..], id, u)
  }

  /**
   * Applying the same update twice gives the list applying it once gives,
   * even when the update changes the id itself.
   */
  lemma UpdatedIdempotent(contacts: seq<Contact>, id: string, u: ContactUpdate)
    ensures Updated(Updated(contacts, id, u), id, u) == Updated(contacts, id, u)
  {
    var once := Updated(contacts, id, u);
    var twice := Updated(once, id, u);
    forall i | 0 <= i < |contacts| ensures twice[i] == once[i] {
      MergeIdempotent(contacts[i], u);
    }
  }

  /** The contact store. */
  class Store {
    var contacts: seq<Contact>

    constructor ()
      ensures contacts == []
    {
      contacts := [];
    }

    /** `addContact`: the contact goes last, with no duplicate check. */
    method AddContact(contact: Contact)
      modifies this
      ensures contacts == old(contacts) + [contact]
    {
      contacts := contacts + [contact];
    }

    method RemoveContact(contactId: string)
      modifies this
      ensures contacts == Removed(old(contacts), contactId)
    {
      contacts := Removed(contacts, contactId);
    }

    method UpdateContact(contactId: string, updates: ContactUpdate)
      modifies this
      ensures contacts == Updated(old(contacts), contactId, updates)
    {
      contacts := Updated(contacts, contactId, updates);
    }
  }
}
