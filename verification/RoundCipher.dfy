/** The round structure of AES: the cipher of FIPS 197 section 5.1 and the equivalent inverse cipher
    of section 5.3.5, over any state and any transformations that obey the laws the standard's proof
    of equivalence uses, and the proof that the one undoes the other. */
module RoundCipher {

  /** sub stands for SubBytes and ShiftRows together, which commute with one another. */
  datatype Steps<!B> = Steps(sub: B -> B, invSub: B -> B, mix: B -> B, invMix: B -> B, add: (B, B) -> B)

  ghost predicate Laws<B(!new)>(p: Steps<B>) {
    && (forall s :: p.invSub(p.sub(s)) == s)
    && (forall s, k :: p.add(p.invMix(p.add(p.mix(s), k)), p.invMix(k)) == s)
    && (forall s, k :: p.add(p.add(s, k), k) == s)
  }

  function Round<B>(p: Steps<B>, s: B, k: B): B { p.add(p.mix(p.sub(s)), k) }

  function FinalRound<B>(p: Steps<B>, s: B, k: B): B { p.add(p.sub(s), k) }

  /** The state after r full rounds. */
  function AfterRounds<B>(p: Steps<B>, input: B, keys: seq<B>, r: nat): B
    requires r < |keys|
  {
    if r == 0 then p.add(input, keys[0]) else Round(p, AfterRounds(p, input, keys, r - 1), keys[r])
  }

  function Cipher<B>(p: Steps<B>, input: B, keys: seq<B>): B
    requires |keys| >= 2
  {
    FinalRound(p, AfterRounds(p, input, keys, |keys| - 2), keys[|keys| - 1])
  }

  /** The round keys in reverse order, all but the first and last put through the inverse mix. */
  function InverseKey<B>(p: Steps<B>, keys: seq<B>, i: nat): B
    requires i < |keys|
  {
    var k := keys[|keys| - 1 - i];
    if 0 < i < |keys| - 1 then p.invMix(k) else k
  }

  function InverseKeys<B>(p: Steps<B>, keys: seq<B>): (r: seq<B>)
    ensures |r| == |keys|
    ensures forall i :: 0 <= i < |keys| ==> r[i] == InverseKey(p, keys, i)
  {
    seq(|keys|, i requires 0 <= i < |keys| => InverseKey(p, keys, i))
  }

  /** The same rounds with the inverse transformations. */
  function Inverse<B>(p: Steps<B>): Steps<B> { Steps(p.invSub, p.sub, p.invMix, p.mix, p.add) }

  function EqInvCipher<B>(p: Steps<B>, input: B, keys: seq<B>): B
    requires |keys| >= 2
  {
    Cipher(Inverse(p), input, keys)
  }

  /** After i rounds, decryption is where encryption was in round n - i before its mix. */
  lemma {:induction false} StatesMirror<B(!new)>(p: Steps<B>, input: B, keys: seq<B>, i: nat)
    requires Laws(p) && i < |keys| - 1
    ensures AfterRounds(Inverse(p), Cipher(p, input, keys), InverseKeys(p, keys), i)
         == p.sub(AfterRounds(p, input, keys, |keys| - 2 - i))
  {
    if i > 0 {
      StatesMirror(p, input, keys, i - 1);
    }
  }

  /** For every key schedule, of whatever length, the equivalent inverse cipher under the inverted
      schedule undoes the cipher. */
  lemma {:induction false} DecryptUndoesEncrypt<B(!new)>(p: Steps<B>, input: B, keys: seq<B>)
    requires Laws(p) && |keys| >= 2
    ensures EqInvCipher(p, Cipher(p, input, keys), InverseKeys(p, keys)) == input
  {
    StatesMirror(p, input, keys, |keys| - 2);
  }

  // ----- The round loop -----

  /** How code performs the rounds, on states of its own. */
  datatype Code<!W> = Code(add: (W, W) -> W, full: (W, W) -> W, last: (W, W) -> W)

  ghost predicate Implements<W(!new), B>(c: Code<W>, view: W -> B, p: Steps<B>) {
    && (forall s, k :: view(c.add(s, k)) == p.add(view(s), view(k)))
    && (forall s, k :: view(c.full(s, k)) == Round(p, view(s), view(k)))
    && (forall s, k :: view(c.last(s, k)) == FinalRound(p, view(s), view(k)))
  }

  function View<W, B>(view: W -> B, rk: seq<W>): (keys: seq<B>)
    ensures |keys| == |rk|
    ensures forall i :: 0 <= i < |rk| ==> keys[i] == view(rk[i])
  {
    seq(|rk|, i requires 0 <= i < |rk| => view(rk[i]))
  }

  /** Keys reversed and, but for the first and last, mixed by the code are the inverted schedule. */
  lemma {:induction false} MixedMirrored<W(!new), B>(view: W -> B, mix: W -> W, p: Steps<B>, before: seq<W>, after: seq<W>)
    requires |before| == |after| > 0 && forall g :: view(mix(g)) == p.invMix(view(g))
    requires forall r :: 0 <= r < |after| ==>
      after[r] == var g := before[|after| - 1 - r]; if 0 < r < |after| - 1 then mix(g) else g
    ensures View(view, after) == InverseKeys(p, View(view, before))
  {
  }

  /** The code's state stands for the cipher's state after r rounds. */
  ghost predicate At<W, B>(view: W -> B, p: Steps<B>, input: W, rk: seq<W>, r: nat, s: W) {
    r < |rk| && view(s) == AfterRounds(p, view(input), View(view, rk), r)
  }

  lemma {:induction false} LastStep<W(!new), B>(c: Code<W>, view: W -> B, p: Steps<B>, input: W, rk: seq<W>, t: W)
    requires Implements(c, view, p) && 2 <= |rk| && At(view, p, input, rk, |rk| - 2, t)
    ensures view(c.last(t, rk[|rk| - 1])) == Cipher(p, view(input), View(view, rk))
  {
  }

  lemma {:induction false} FullStep<W(!new), B>(c: Code<W>, view: W -> B, p: Steps<B>, input: W, rk: seq<W>, r: nat, s: W)
    requires Implements(c, view, p) && r + 1 < |rk| && At(view, p, input, rk, r, s)
    ensures At(view, p, input, rk, r + 1, c.full(s, rk[r + 1]))
  {
  }

  /** The loop of AES_encrypt and AES_decrypt: rounds / 2 turns of two full rounds, in which s and t
      take turns, the last turn left after its first round, and then the final round. */
  method RunRounds<W(!new), B>(c: Code<W>, input: W, rk: seq<W>, rounds: nat, ghost view: W -> B, ghost p: Steps<B>)
    returns (s: W)
    requires Implements(c, view, p)
    requires rounds >= 2 && rounds % 2 == 0 && |rk| == rounds + 1
    ensures view(s) == Cipher(p, view(input), View(view, rk))
  {
    s := c.add(input, rk[0]);
    var t := s;
    var r := rounds / 2;
    var at := 0;
    while true
      invariant 1 <= r && at + 2 * r == rounds
      invariant At(view, p, input, rk, at, s)
      decreases r
    {
      FullStep(c, view, p, input, rk, at, s);
      t := c.full(s, rk[at + 1]);
      at := at + 2;
      r := r - 1;
      if r == 0 {
        break;
      }
      FullStep(c, view, p, input, rk, at - 1, t);
      s := c.full(t, rk[at]);
    }
    LastStep(c, view, p, input, rk, t);
    s := c.last(t, rk[at]);
  }
}
