/** The round trips of AES with the substitution tables it is specified with. */
module AesStandard {
  import opened AesCipher
  import opened AesField
  import opened AesSbox
  import opened CbcMode
  import opened RoundCipher
  import AesCbc
  import AesKeySchedule

  /** For every key of 128, 192 or 256 bits and every block: AES_decrypt undoes AES_encrypt. */
  lemma {:induction false} AesRoundTrip(key: seq<Column>, block: Block)
    requires AesKeySchedule.KeyLength(|key|)
    ensures var keys := AesKeySchedule.Schedule(AES_BOX, key);
            EqInvCipher(Aes(AES_BOX), Cipher(Aes(AES_BOX), block, keys), InverseKeys(Aes(AES_BOX), keys)) == block
  {
    hide S, Si;
    AesBoxInverts();
    AesKeySchedule.RoundTrip(AES_BOX, key, block);
  }

  /** For every such key, every vector and every message of any length: decrypting what AES_cbc_encrypt
      encrypted gives back the message. */
  lemma {:induction false} AesCbcRoundTrip(key: seq<Column>, iv: Bytes, msg: Bytes)
    requires AesKeySchedule.KeyLength(|key|) && |iv| == SIZE
    ensures var keys := AesKeySchedule.Schedule(AES_BOX, key);
            var e, d := AesCbc.Encipher(AES_BOX, keys), AesCbc.Decipher(AES_BOX, InverseKeys(Aes(AES_BOX), keys));
            && Undoes(d, e) && |Encrypt(e, iv, msg).out| == Padded(|msg|)
            && Decrypt(d, iv, Encrypt(e, iv, msg).out, |msg|).out == msg
  {
    hide S, Si;
    AesBoxInverts();
    AesCbc.AesCbcRoundTrip(AES_BOX, key, iv, msg);
  }
}
