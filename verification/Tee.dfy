/**
 ortoa-tee/src/enclave/ecalls.cpp and ortoa-tee/src/host/host.cpp: one access, as the code
 runs it alone.
 */
module Tee {
  import opened EncryptionEngine

  type Key = string

  // The value of `op` that access_data tests for; every other value updates.
  const GET: int := 0

  // The ciphertext an access decrypts.
  function Input(op: int, stored: Cipher, update: Cipher): Cipher {
    if op == GET then stored else update
  }

  // What reaches the host: the enclave's output buffer is only as long as the stored
  // ciphertext (ortoa.edl:12-16), so a longer output arrives cut off and padded with junk.
  function Transfer(c: Cipher, inSize: nat): (r: Cipher)
    ensures Length(r) == Length(c)
    ensures r == c <==> Length(c) <= inSize || c.Mangled?
    ensures Length(c) > inSize ==> r.Mangled?
  {
    if Length(c) <= inSize then c else Mangled(Length(c))
  }

  // The out-parameters cipher_text and out_size; not ok if the enclave aborts.
  method AccessData(op: int, inVal: Cipher, updateVal: Cipher, random: nat -> nat)
    returns (ok: bool, cipherText: Cipher, outSize: nat)
    ensures op == 0 ==> (ok <==> Decrypt(inVal).Some?)
    ensures op != 0 ==> (ok <==> Decrypt(updateVal).Some?)
    ensures ok && op == 0 ==> cipherText == Encrypt(Decrypt(inVal).value, SaltOf(random))
    ensures ok && op != 0 ==> cipherText == Encrypt(Decrypt(updateVal).value, SaltOf(random))
    ensures ok ==> outSize == Length(cipherText)
  {
    cipherText, outSize, ok := EMPTY, 0, false;
    var decrypted;
    if op == GET {
      decrypted := DecryptNonDeterministic(inVal);
    } else {
      decrypted := DecryptNonDeterministic(updateVal);
    }
    var plain := if decrypted.Some? then decrypted.value else "";
    cipherText := EncryptNonDeterministic(plain, random);
    if decrypted.Some? {
      ok, outSize := true, Length(cipherText);
    }
  }

  function Stored(db: map<Key, Cipher>, key: Key): Cipher {
    if key in db then db[key] else EMPTY
  }

  class Host {
    var db: map<Key, Cipher>

    constructor (db: map<Key, Cipher>)
      ensures this.db == db
    {
      this.db := db;
    }

    // Alone and with an output that fits, GET returns and keeps the stored value, PUT returns
    // and stores the sent one, both encrypted with the digits of the numbers drawn for this
    // access; an output that does not fit is cut off; a failed enclave call changes nothing
    // and returns the empty string.
    method Access(op: int, key: Key, value: Cipher, random: nat -> nat, enclaveUp: bool) returns (ret: Cipher)
      modifies this
      ensures var stored := Stored(old(db), key);
              var p := Decrypt(if op == 0 then stored else value);
              if !enclaveUp || p.None? then ret == Mangled(0) && db == old(db)
              else
                var length := 16 * ((|p.value| + 11) / 16 + 1);
                && db == old(db)[key := ret] && Length(ret) == length
                && (length <= Length(stored) ==> ret == Encrypt(p.value, SaltOf(random)) && Decrypt(ret) == p)
                && (length > Length(stored) ==> ret.Mangled?)
      // a missing key has nothing to read and no room for an output
      ensures key !in old(db) ==> ret.Mangled? && (op == 0 ==> db == old(db))
    {
      ret := EMPTY;
      var rdValue := Stored(db, key);
      var ok, cipherText, outLen := AccessData(op, rdValue, value, random);
      if enclaveUp && ok {
        ghost var p := Decrypt(Input(op, rdValue, value)).value;
        DecryptedHasNoNul(Input(op, rdValue, value));
        DecryptEncrypt(p, SaltOf(random));
        EncryptionFitsBufferIff(p, SaltOf(random));
        var updatedVal := Transfer(cipherText, Length(rdValue));
        db := db[key := updatedVal];
        ret := updatedVal;
      }
    }
  }
}
