/**
 * The editor's easter egg: `check_key_sequence` keeps a sliding window of
 * the last key presses and fires when it spells the secret sequence.
 */
module EasterEgg {

  /** The secret sequence `setup_easter_egg` installs. */
  const Secret: seq<string> := ["Up", "Up", "Down", "Down"]

  /** The last `n` elements of `s`, or all of it when it is shorter. */
  function Last<T>(s: seq<T>, n: nat): (r: seq<T>)
    ensures |r| == if |s| <= n then |s| else n
    ensures forall i :: 0 <= i < |r| ==> r[i] == s[|s| - |r| + i]
  {
    if |s| <= n then s else s[|s| - n..]
  }

  /** One more element on the end keeps "the last `n`" once the oldest is dropped. */
  lemma LastSnoc<T>(s: seq<T>, x: T, n: nat)
    requires n > 0
    ensures var w := Last(s, n) + [x];
      Last(s + [x], n) == if |w| > n then w[1..] else w
  {
    var w := Last(s, n) + [x];
    var l := Last(s + [x], n);
    if |w| > n {
      assert |l| == |w[1..]|;
      forall i | 0 <= i < |l| ensures l[i] == w[1..][i] {
        if i < |l| - 1 {
          assert w[1..][i] == Last(s, n)[i + 1];
        }
      }
    } else {
      assert |l| == |w|;
      forall i | 0 <= i < |l| ensures l[i] == w[i] {
        if i < |l| - 1 {
          assert w[i] == Last(s, n)[i];
        }
      }
    }
  }

  class KeyWatcher {
    /** `self.easter_keys`. */
    var keys: seq<string>
    /** `self.secret_sequence`. */
    const secret: seq<string>
    /** The keys pressed since the egg last fired. */
    ghost var pressed: seq<string>

    /** The window is the last `|secret|` presses since the egg last fired. */
    ghost predicate Valid()
      reads this
    {
      keys == Last(pressed, |secret|)
    }

    /** `setup_easter_egg`. */
    constructor ()
      ensures Valid() && secret == Secret && keys == [] && pressed == []
    {
      keys := [];
      secret := Secret;
      pressed := [];
    }

    /** `check_key_sequence`: the key is appended, the oldest is dropped when
        the window overflows, and when the window equals the secret the egg
        fires and the window is emptied. */
    method CheckKeySequence(keysym: string) returns (fired: bool)
      requires Valid() && secret != []
      modifies this
      ensures Valid()
      ensures fired <==> Last(old(pressed) + [keysym], |secret|) == secret
      ensures pressed == if fired then [] else old(pressed) + [keysym]
      ensures |keys| <= |secret|
    {
      LastSnoc(pressed, keysym, |secret|);
      keys := keys + [keysym];
      if |keys| > |secret| {
        keys := keys[1..];
      }
      pressed := pressed + [keysym];
      fired := keys == secret;
      if fired {
        keys := [];
        pressed := [];
      }
    }
  }

  /** The window fires on four presses that spell the secret, whatever came before. */
  lemma SecretFires(before: seq<string>)
    ensures Last(before + Secret, |Secret|) == Secret
  {
    assert (before + Secret)[|before|..] == Secret;
  }
}
