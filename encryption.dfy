/**
 * The mock message codec of utils/encryption.ts. Sealing needs no key
 * material: with a recipient key present, the message is prefixed with
 * `MOCK:`, UTF-8 encoded and Base64 encoded, and the envelope carries fixed
 * placeholder values for the ephemeral key and the nonce.
 */
module Encryption {
  import opened Wrappers
  import opened Types
  import Utf8
  import Base64

  const MockPrefix: string := "MOCK:"
  const MockEphemeralKey: string := "mock-key"
  const MockNonce: string := "mock-nonce"
  const Undecryptable: string := "[Encrypted message]"

  /** A key counts as given when it is defined and not empty (JavaScript's `!key` is false). */
  predicate IsPresent(key: Option<string>)
  {
    key.Some? && key.value != ""
  }

  /** The envelope `encryptMessage` builds for a message. */
  function MockEnvelope(message: string): EncryptedContent
  {
    EncryptedContent(Base64.Encode(Utf8.Encode(MockPrefix + message)), MockEphemeralKey, MockNonce)
  }

  /** `encryptMessage`: plaintext without a recipient key, the mock envelope with one. */
  function EncryptMessage(message: string, recipientPublicKey: Option<string>): (r: Content)
    ensures r.Plain? <==> !IsPresent(recipientPublicKey)
    ensures r.Plain? ==> r.text == message
    ensures r.Sealed? ==> r.envelope.ephemeralPublicKey == MockEphemeralKey && r.envelope.nonce == MockNonce
  {
    if !IsPresent(recipientPublicKey) then Plain(message)
    else Sealed(MockEnvelope(message))
  }

  /**
   * `decryptMessage`: plaintext passes through, an envelope without a private
   * key reads as the empty string, otherwise the Base64 and UTF-8 layers are
   * undone and the `MOCK:` prefix stripped; anything else reads as the
   * placeholder. The function is total: it never throws.
   */
  function DecryptMessage(encryptedData: Content, privateKey: Option<string>): (r: string)
    ensures encryptedData.Plain? ==> r == encryptedData.text
  {
    match encryptedData
    case Plain(text) => text
    case Sealed(envelope) =>
      if !IsPresent(privateKey) then ""
      else
        var content := Utf8.Decode(Base64.Decode(envelope.encrypted));
        if MockPrefix <= content then content[|MockPrefix|..] else Undecryptable
  }

  /**
   * Round trip: what `encryptMessage` produced reads back as the original
   * message, for any reader key when no recipient key was given, and for any
   * present reader key otherwise.
   */
  lemma DecryptEncrypted(message: string, recipientPublicKey: Option<string>, privateKey: Option<string>)
    requires IsPresent(recipientPublicKey) ==> IsPresent(privateKey)
    ensures DecryptMessage(EncryptMessage(message, recipientPublicKey), privateKey) == message
  {
    if IsPresent(recipientPublicKey) {
      var text := MockPrefix + message;
      Base64.RoundTrip(Utf8.Encode(text));
      Utf8.RoundTrip(text);
      assert text[|MockPrefix|..] == message;
    }
  }

  /**
   * Sealing is deterministic and blind to the key's value: any two present
   * keys give the same envelope for the same message.
   */
  lemma EncryptIgnoresKeyValue(message: string, key1: Option<string>, key2: Option<string>)
    requires IsPresent(key1) && IsPresent(key2)
    ensures EncryptMessage(message, key1) == EncryptMessage(message, key2) == Sealed(MockEnvelope(message))
  {
  }

  /** An envelope read without a private key is the empty string, whatever it holds. */
  lemma DecryptWithoutKey(envelope: EncryptedContent, privateKey: Option<string>)
    requires !IsPresent(privateKey)
    ensures DecryptMessage(Sealed(envelope), privateKey) == ""
  {
  }

  /** An envelope whose decoded text does not start with `MOCK:` reads as the placeholder. */
  lemma DecryptForeignEnvelope(envelope: EncryptedContent, privateKey: Option<string>)
    requires IsPresent(privateKey)
    requires !(MockPrefix <= Utf8.Decode(Base64.Decode(envelope.encrypted)))
    ensures DecryptMessage(Sealed(envelope), privateKey) == Undecryptable
  {
  }

  /** Example of `DecryptForeignEnvelope`: an envelope with an empty `encrypted` field reads as the placeholder. */
  lemma DecryptEmptyEnvelope(privateKey: Option<string>)
    requires IsPresent(privateKey)
    ensures DecryptMessage(Sealed(EncryptedContent("", MockEphemeralKey, MockNonce)), privateKey) == Undecryptable
  {
    assert Base64.Clean("") == [];
    assert Base64.Decode("") == [];
    assert Utf8.Decode([]) == [];
  }
}
