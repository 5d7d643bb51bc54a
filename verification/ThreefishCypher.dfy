/** The class of block_cyphers/threefish.hpp, with its loops. */
module ThreefishCypher {
  import opened BasicFunctions
  import opened Threefish

  /** r[..n] is done and the rest is still as it was. */
  ghost predicate Progress(r: seq<Word>, done: seq<Word>, was: seq<Word>, n: nat) {
    && |r| == |done| == |was|
    && (forall i :: 0 <= i < n && i < |r| ==> r[i] == done[i])
    && (forall i :: 0 <= i < |r| && n <= i ==> r[i] == was[i])
  }

  class Cypher {
    const policy: Policy
    const keySchedule: array<Word>
    const tweakSchedule: array<Word>

    ghost predicate Valid() {
      && policy.Valid() && policy.rounds < 0x1_0000_0000
      && keySchedule.Length == policy.words + 1 && tweakSchedule.Length == 3
      && keySchedule != tweakSchedule
    }

    ghost function Schedules(): (k: Schedule)
      requires Valid()
      reads keySchedule, tweakSchedule
      ensures k.Fits(policy)
    {
      Schedule(keySchedule[..], tweakSchedule[..])
    }

    constructor (policy: Policy, key: seq<Word>, tweak: seq<Word>)
      requires policy.Valid() && policy.rounds < 0x1_0000_0000
      requires |key| == policy.words && |tweak| == 2
      ensures Valid() && this.policy == policy && fresh(keySchedule) && fresh(tweakSchedule)
      ensures Schedules() == Schedule(ExtendKey(key), ExtendTweak(tweak))
    {
      this.policy := policy;
      keySchedule := new Word[policy.words + 1];
      tweakSchedule := new Word[3];
      new;
      SetKey(key);
      SetTweak(tweak);
    }

    method SetTweak(t: seq<Word>)
      requires Valid() && |t| == 2
      modifies tweakSchedule
      ensures tweakSchedule[..] == ExtendTweak(t)
    {
      tweakSchedule[0] := t[0];
      tweakSchedule[1] := t[1];
      tweakSchedule[2] := Xor(t[0], t[1]);
    }

    method SetKey(key: seq<Word>)
      requires Valid() && |key| == policy.words
      modifies keySchedule
      ensures keySchedule[..] == ExtendKey(key)
    {
      hide Xor, Policy.Valid;
      var parity := PARITY;
      var t := 0;
      while t < policy.words
        invariant 0 <= t <= policy.words
        invariant keySchedule[..t] == key[..t]
        invariant parity == XorAll(PARITY, key[..t])
      {
        keySchedule[t] := key[t];
        parity := Xor(parity, key[t]);
        assert key[..t + 1] == key[..t] + [key[t]];
        t := t + 1;
      }
      assert key[..t] == key;
      keySchedule[policy.words] := parity;
    }

    function K(s: nat, i: nat): (x: Word)
      requires Valid() && s < 0x1_0000_0000 && i < policy.words
      reads keySchedule, tweakSchedule
      ensures x == Subkey(policy, Schedules(), s, i)
    {
      var x := keySchedule[(s + i) % (policy.words + 1)];
      if i == policy.words - 3 then Plus(x, tweakSchedule[s % 3])
      else if i == policy.words - 2 then Plus(x, tweakSchedule[(s + 1) % 3])
      else if i == policy.words - 1 then Plus(x, AsWord(s))
      else x
    }

    method AddKey(v: array<Word>, s: nat)
      requires Valid() && v.Length == policy.words && v != keySchedule && v != tweakSchedule
      requires s < 0x1_0000_0000
      modifies v
      ensures v[..] == AddSubkey(policy, Schedules(), s, old(v[..]))
    {
      hide Subkey, Plus, Policy.Valid;
      ghost var done := AddSubkey(policy, Schedules(), s, v[..]);
      var i := 0;
      while i < policy.words
        invariant 0 <= i <= policy.words
        invariant keySchedule[..] == old(keySchedule[..]) && tweakSchedule[..] == old(tweakSchedule[..])
        invariant Progress(v[..], done, old(v[..]), i)
      {
        v[i] := Plus(v[i], K(s, i));
        i := i + 1;
      }
      assert v[..] == done;
    }

    method SubKey(v: array<Word>, s: nat)
      requires Valid() && v.Length == policy.words && v != keySchedule && v != tweakSchedule
      requires s < 0x1_0000_0000
      modifies v
      ensures v[..] == SubSubkey(policy, Schedules(), s, old(v[..]))
    {
      hide Subkey, Minus, Policy.Valid;
      ghost var done := SubSubkey(policy, Schedules(), s, v[..]);
      var i := 0;
      while i < policy.words
        invariant 0 <= i <= policy.words
        invariant keySchedule[..] == old(keySchedule[..]) && tweakSchedule[..] == old(tweakSchedule[..])
        invariant Progress(v[..], done, old(v[..]), i)
      {
        v[i] := Minus(v[i], K(s, i));
        i := i + 1;
      }
      assert v[..] == done;
    }

    method MixInto(v: array<Word>, f: array<Word>, d: nat)
      requires Valid() && v.Length == f.Length == policy.words && v != f
      modifies f
      ensures f[..] == Mix(policy, d, v[..])
    {
      hide Mix, Policy.Rot, Policy.Valid, Plus, Rotl, Xor;
      Shape(policy);
      var n := policy.words / 2;
      ghost var v0 := v[..];
      ghost var done := Mix(policy, d, v0);
      var j := 0;
      while j < n
        invariant 0 <= j <= n && v[..] == v0
        invariant forall i :: 0 <= i < 2 * j ==> f[i] == done[i]
      {
        MixPair(policy, d, v0, j);
        var x0 := v[2 * j];
        var x1 := v[2 * j + 1];
        var y0 := Plus(x0, x1);
        var r := policy.Rot(d, j);
        var y1 := Xor(Rotl(x1, r), y0);
        f[2 * j] := y0;
        f[2 * j + 1] := y1;
        j := j + 1;
      }
    }

    /** f[i] gets v[i] in the permuted order; v and f are both working storage. */
    method PermuteInto(f: array<Word>, v: array<Word>)
      requires Valid() && v.Length == f.Length == policy.words && v != f
      modifies v
      ensures v[..] == Permute(policy, f[..])
    {
      var i := 0;
      while i < policy.words
        invariant 0 <= i <= policy.words
        invariant forall j :: 0 <= j < i ==> v[j] == f[policy.permutation[j]]
      {
        var pi := policy.permutation[i];
        v[i] := f[pi];
        i := i + 1;
      }
    }

    method UnpermuteInto(v: array<Word>, f: array<Word>)
      requires Valid() && v.Length == f.Length == policy.words && v != f
      modifies f
      ensures f[..] == Unpermute(policy, v[..])
    {
      hide IndexOf;
      var i := 0;
      while i < policy.words
        invariant 0 <= i <= policy.words
        invariant forall j :: 0 <= j < i ==> f[policy.permutation[j]] == v[j]
      {
        var pi := policy.permutation[i];
        f[pi] := v[i];
        i := i + 1;
      }
    }

    method UnmixInto(f: array<Word>, v: array<Word>, d: nat)
      requires Valid() && v.Length == f.Length == policy.words && v != f
      modifies v
      ensures v[..] == Unmix(policy, d, f[..])
    {
      hide Unmix, Policy.Rot, Policy.Valid, Minus, Rotr, Xor;
      Shape(policy);
      var n := policy.words / 2;
      ghost var f0 := f[..];
      ghost var done := Unmix(policy, d, f0);
      var j := 0;
      while j < n
        invariant 0 <= j <= n && f[..] == f0
        invariant forall i :: 0 <= i < 2 * j ==> v[i] == done[i]
      {
        UnmixPair(policy, d, f0, j);
        var y0 := f[2 * j];
        var y1 := f[2 * j + 1];
        var r := policy.Rot(d, j);
        var x1 := Rotr(Xor(y0, y1), r);
        var x0 := Minus(y0, x1);
        v[2 * j] := x0;
        v[2 * j + 1] := x1;
        j := j + 1;
      }
    }

    /** One turn of the outer loop: a subkey and the four rounds that follow it. */
    method FourRounds(v: array<Word>, f: array<Word>, d: nat)
      requires Valid() && v.Length == f.Length == policy.words
      requires {v, f} !! {keySchedule, tweakSchedule} && v != f
      requires Fours(d) && d + 4 < 0x1_0000_0000
      modifies v, f
      ensures v[..] == RoundsFrom(policy, Schedules(), d, 4, old(v[..]))
    {
      hide AddSubkey, Mix, Permute, Round, RoundsFrom, Policy.Valid, Schedules;
      ghost var k := Schedules();
      ghost var v0 := v[..];
      RoundsFromZero(policy, k, d, v0);
      AddKey(v, d / 4);
      var q := 0;
      while q < 4
        invariant 0 <= q <= 4 && Schedules() == k
        invariant q == 0 ==> v[..] == AddSubkey(policy, k, d / 4, v0)
        invariant q > 0 ==> v[..] == RoundsFrom(policy, k, d, q, v0)
      {
        OneMore(policy, k, d, q, v0);
        MixInto(v, f, d + q);
        PermuteInto(f, v);
        q := q + 1;
      }
    }

    method FourUnrounds(v: array<Word>, f: array<Word>, d: nat)
      requires Valid() && v.Length == f.Length == policy.words
      requires {v, f} !! {keySchedule, tweakSchedule} && v != f
      requires Fours(d) && 4 <= d < 0x1_0000_0000
      modifies v, f
      ensures Unrounds(policy, Schedules(), d - 4, v[..]) == Unrounds(policy, Schedules(), d, old(v[..]))
    {
      hide SubSubkey, Unmix, Unpermute, Unround, Unrounds, Policy.Valid, Schedules;
      ghost var k := Schedules();
      ghost var goal := Unrounds(policy, k, d, v[..]);
      var q := 4;
      while q != 0
        invariant 0 <= q <= 4 && Schedules() == k
        invariant q > 0 ==> Unrounds(policy, k, d - 4 + q, v[..]) == goal
        invariant q == 0 ==> Unrounds(policy, k, d - 4, SubSubkey(policy, k, d / 4 - 1, v[..])) == goal
      {
        q := q - 1;
        OneLess(policy, k, d, q, v[..]);
        UnpermuteInto(v, f);
        UnmixInto(f, v, d - 4 + q);
      }
      SubKey(v, d / 4 - 1);
    }

    method Copy(block: Block) returns (v: array<Word>)
      ensures fresh(v) && v[..] == block
    {
      v := new Word[|block|](i requires 0 <= i < |block| => block[i]);
    }

    method Encypher(plaintext: Block) returns (cyphertext: Block)
      requires Valid() && |plaintext| == policy.words
      ensures cyphertext == Encyphered(policy, Schedules(), plaintext)
    {
      hide AddSubkey, Rounds, Policy.Valid, Schedules;
      var v := Copy(plaintext);
      var f := Copy(plaintext);
      AllRounds(v, f);
      AddKey(v, policy.rounds / 4);
      cyphertext := v[..];
    }

    method AllRounds(v: array<Word>, f: array<Word>)
      requires Valid() && v.Length == f.Length == policy.words
      requires {v, f} !! {keySchedule, tweakSchedule} && v != f
      modifies v, f
      ensures v[..] == Rounds(policy, Schedules(), policy.rounds, old(v[..]))
    {
      hide Fours, RoundsFrom, Rounds, Policy.Valid, Schedules;
      WholeFours(policy);
      ghost var k := Schedules();
      ghost var v0 := v[..];
      var d := 0;
      RoundsZero(policy, k, v0);
      while d < policy.rounds
        invariant 0 <= d <= policy.rounds && Fours(d) && Schedules() == k
        invariant v[..] == Rounds(policy, k, d, v0)
      {
        Aligned(d, policy.rounds);
        FourMore(policy, k, d, v0);
        FourRounds(v, f, d);
        d := d + 4;
      }
    }

    method Decypher(cyphertext: Block) returns (plaintext: Block)
      requires Valid() && |cyphertext| == policy.words
      ensures plaintext == Decyphered(policy, Schedules(), cyphertext)
    {
      hide SubSubkey, Unrounds, Policy.Valid, Schedules;
      var v := Copy(cyphertext);
      var f := Copy(cyphertext);
      SubKey(v, policy.rounds / 4);
      AllUnrounds(v, f);
      plaintext := v[..];
    }

    method AllUnrounds(v: array<Word>, f: array<Word>)
      requires Valid() && v.Length == f.Length == policy.words
      requires {v, f} !! {keySchedule, tweakSchedule} && v != f
      modifies v, f
      ensures v[..] == Unrounds(policy, Schedules(), policy.rounds, old(v[..]))
    {
      hide Fours, Unrounds, Policy.Valid, Schedules;
      WholeFours(policy);
      ghost var k := Schedules();
      ghost var goal := Unrounds(policy, k, policy.rounds, v[..]);
      var d := policy.rounds;
      while d != 0
        invariant 0 <= d <= policy.rounds && Fours(d) && Schedules() == k
        invariant Unrounds(policy, k, d, v[..]) == goal
      {
        Aligned(0, d);
        FourUnrounds(v, f, d);
        d := d - 4;
      }
      UnroundsZero(policy, k, v[..]);
    }
  }

  /** n rounds, from round d on. */
  ghost function RoundsFrom(p: Policy, k: Schedule, d: nat, n: nat, v: Block): (r: Block)
    requires p.Valid() && k.Fits(p) && d + n < 0x1_0000_0000 && |v| == p.words
    ensures |r| == p.words
  {
    if n == 0 then v else Round(p, k, d + n - 1, RoundsFrom(p, k, d, n - 1, v))
  }

  ghost predicate Fours(n: nat) {
    n % 4 == 0
  }

  lemma {:induction false} WholeFours(p: Policy)
    requires p.Valid()
    ensures Fours(p.rounds) && Fours(0)
  {
    hide Policy.Valid;
    Shape(p);
  }

  lemma Aligned(d: nat, n: nat)
    requires Fours(d) && Fours(n) && d < n
    ensures d + 4 <= n && Fours(d + 4) && Fours(n - 4)
  {
  }

  lemma RoundsFromZero(p: Policy, k: Schedule, d: nat, v: Block)
    requires p.Valid() && k.Fits(p) && d < 0x1_0000_0000 && |v| == p.words
    ensures RoundsFrom(p, k, d, 0, v) == v
  {
    hide Policy.Valid;
  }

  lemma RoundsZero(p: Policy, k: Schedule, v: Block)
    requires p.Valid() && k.Fits(p) && |v| == p.words
    ensures Rounds(p, k, 0, v) == v
  {
    hide Policy.Valid;
  }

  lemma UnroundsZero(p: Policy, k: Schedule, v: Block)
    requires p.Valid() && k.Fits(p) && |v| == p.words
    ensures Unrounds(p, k, 0, v) == v
  {
    hide Policy.Valid;
  }

  lemma OneMore(p: Policy, k: Schedule, d: nat, q: nat, v: Block)
    requires p.Valid() && k.Fits(p) && d % 4 == 0 && q < 4 && d + 4 < 0x1_0000_0000 && |v| == p.words
    ensures RoundsFrom(p, k, d, q + 1, v) ==
      Permute(p, Mix(p, d + q, if q == 0 then AddSubkey(p, k, d / 4, v) else RoundsFrom(p, k, d, q, v)))
  {
    hide Policy.Valid, AddSubkey, Mix, Permute;
  }

  lemma OneLess(p: Policy, k: Schedule, d: nat, q: nat, v: Block)
    requires p.Valid() && k.Fits(p) && d % 4 == 0 && q < 4 <= d < 0x1_0000_0000 && |v| == p.words
    ensures Unrounds(p, k, d - 3 + q, v) ==
      Unrounds(p, k, d - 4 + q,
        if q == 0 then SubSubkey(p, k, d / 4 - 1, Unmix(p, d - 4, Unpermute(p, v)))
        else Unmix(p, d - 4 + q, Unpermute(p, v)))
  {
    hide Policy.Valid, SubSubkey, Unmix, Unpermute;
  }

  lemma {:induction false} FourMore(p: Policy, k: Schedule, d: nat, v: Block)
    requires p.Valid() && k.Fits(p) && d + 4 < 0x1_0000_0000 && |v| == p.words
    ensures Rounds(p, k, d + 4, v) == RoundsFrom(p, k, d, 4, Rounds(p, k, d, v))
  {
    hide Policy.Valid, Round, Rounds, RoundsFrom;
    Further(p, k, d, 4, v);
  }

  lemma {:induction false} Further(p: Policy, k: Schedule, d: nat, n: nat, v: Block)
    requires p.Valid() && k.Fits(p) && d + n < 0x1_0000_0000 && |v| == p.words
    ensures Rounds(p, k, d + n, v) == RoundsFrom(p, k, d, n, Rounds(p, k, d, v))
  {
    hide Policy.Valid, Round;
    if n > 0 { Further(p, k, d, n - 1, v); }
  }
}
