/** Per-frame label classification and the alert cooldown (detector.py:168-194).

    Each detection's class name is lower-cased and matched by substring:
    "no-hardhat" first, then "hardhat". A frame is a violation when it has
    at least one no-helmet detection; a violation raises an alert only when
    more than the cooldown has passed since the last alert that fired. */
module Policy {

  /** `config.ALERT_COOLDOWN` (config.py:7), in seconds. */
  const AlertCooldown: real := 10.0

  const NoHardhat: string := "no-hardhat"
  const Hardhat: string := "hardhat"

  // ---------------------------------------------------------------------------
  // Strings.
  // ---------------------------------------------------------------------------

  function LowerChar(c: char): char
  {
    if 'A' <= c <= 'Z' then (c as int + 32) as char else c
  }

  /** `str.lower()` on the ASCII letters. */
  function Lower(s: string): (r: string)
    ensures |r| == |s|
    ensures forall i :: 0 <= i < |s| ==> !('A' <= r[i] <= 'Z')
    ensures forall i :: 0 <= i < |s| && 'A' <= s[i] <= 'Z' ==> r[i] as int == s[i] as int + 32
    ensures forall i :: 0 <= i < |s| && !('A' <= s[i] <= 'Z') ==> r[i] == s[i]
  {
    seq(|s|, i requires 0 <= i < |s| => LowerChar(s[i]))
  }

  /** Lower-casing twice is lower-casing once, and two strings that differ
      only in the case of their letters lower-case alike. */
  lemma LowerIdempotent(s: string)
    ensures Lower(Lower(s)) == Lower(s)
  {
  }

  lemma LowerIgnoresCase(s: string, t: string)
    requires |s| == |t|
    requires forall i :: 0 <= i < |s| ==> LowerChar(s[i]) == LowerChar(t[i])
    ensures Lower(s) == Lower(t)
  {
  }

  /** `sub in s`: `sub` occurs somewhere in `s`. */
  function Contains(s: string, sub: string): bool
    decreases |s|
  {
    |sub| <= |s| && (s[..|sub|] == sub || Contains(s[1..], sub))
  }

  /** `sub` occurs in `s` starting at offset `i`. */
  predicate OccursAt(s: string, sub: string, i: int)
  {
    0 <= i && i + |sub| <= |s| && s[i..i + |sub|] == sub
  }

  /** The scan agrees with the offset definition of a substring, both ways. */
  lemma {:induction false} ContainsIffOccurs(s: string, sub: string)
    ensures Contains(s, sub) <==> exists i :: OccursAt(s, sub, i)
    decreases |s|
  {
    if |sub| <= |s| {
      if s[..|sub|] == sub {
        assert OccursAt(s, sub, 0);
      } else {
        ContainsIffOccurs(s[1..], sub);
        if Contains(s[1..], sub) {
          var i :| OccursAt(s[1..], sub, i);
          assert s[i + 1..i + 1 + |sub|] == s[1..][i..i + |sub|];
          assert OccursAt(s, sub, i + 1);
        }
        if exists i :: OccursAt(s, sub, i) {
          var i :| OccursAt(s, sub, i);
          assert i != 0;
          assert s[1..][i - 1..i - 1 + |sub|] == s[i..i + |sub|];
          assert OccursAt(s[1..], sub, i - 1);
        }
      }
    }
  }

  /** Every label containing "no-hardhat" also contains "hardhat", so the
      no-helmet test has to come first for the `elif` to separate them. */
  lemma NoHardhatContainsHardhat(s: string)
    ensures Contains(s, NoHardhat) ==> Contains(s, Hardhat)
  {
    ContainsIffOccurs(s, NoHardhat);
    ContainsIffOccurs(s, Hardhat);
    if Contains(s, NoHardhat) {
      var i :| OccursAt(s, NoHardhat, i);
      assert s[i + 3..i + 10] == s[i..i + 10][3..];
      assert OccursAt(s, Hardhat, i + 3);
    }
  }

  // ---------------------------------------------------------------------------
  // Classification and counting.
  // ---------------------------------------------------------------------------

  datatype Kind = Helmet | NoHelmet | Unrelated

  /** detector.py:174, 179-182. */
  function Classify(name: string): (k: Kind)
  {
    var l := Lower(name);
    if Contains(l, NoHardhat) then NoHelmet
    else if Contains(l, Hardhat) then Helmet
    else Unrelated
  }

  /** A label counts as no-helmet iff its lower-cased form has "no-hardhat" at
      some offset, and as helmet iff it has "hardhat" but not "no-hardhat". */
  lemma ClassifyBySubstring(name: string)
    ensures var l := Lower(name);
      && (Classify(name) == NoHelmet <==> exists i :: OccursAt(l, NoHardhat, i))
      && (Classify(name) == Helmet <==>
            (exists i :: OccursAt(l, Hardhat, i)) && !(exists i :: OccursAt(l, NoHardhat, i)))
  {
    ContainsIffOccurs(Lower(name), NoHardhat);
    ContainsIffOccurs(Lower(name), Hardhat);
  }

  /** The class names the hard-hat model reports. */
  lemma ClassifyExamples()
    ensures Classify("NO-Hardhat") == NoHelmet
    ensures Classify("Hardhat") == Helmet
    ensures Classify("Person") == Unrelated
  {
    assert Lower("NO-Hardhat") == NoHardhat;
    assert Lower("Hardhat") == Hardhat;
    assert Lower("Person") == "person";
    assert !Contains("person", NoHardhat);
    assert !Contains("person", Hardhat);
    assert !Contains(Hardhat, NoHardhat);
  }

  datatype Counts = Counts(helmet: nat, noHelmet: nat)

  function Kinds(labels: seq<string>): seq<Kind>
  {
    seq(|labels|, i requires 0 <= i < |labels| => Classify(labels[i]))
  }

  /** The `helmet` and `no_helmet` counters of one frame (detector.py:169-182):
      how many labels are classified each way, so each box counts at most once. */
  function Tally(labels: seq<string>): (c: Counts)
    ensures c.helmet == multiset(Kinds(labels))[Helmet]
    ensures c.noHelmet == multiset(Kinds(labels))[NoHelmet]
    ensures c.helmet + c.noHelmet <= |labels|
  {
    if |labels| == 0 then Counts(0, 0)
    else
      var init := labels[..|labels| - 1];
      var c := Tally(init);
      assert Kinds(labels) == Kinds(init) + [Classify(labels[|labels| - 1])];
      match Classify(labels[|labels| - 1])
      case NoHelmet => c.(noHelmet := c.noHelmet + 1)
      case Helmet => c.(helmet := c.helmet + 1)
      case Unrelated => c
  }

  // ---------------------------------------------------------------------------
  // The alert decision.
  // ---------------------------------------------------------------------------

  datatype Decision = Decision(fire: bool, lastAlert: real)

  /** detector.py:187-194: an alert fires when the frame is a violation and
      strictly more than `cooldown` has passed since the last fired alert; only
      a fired alert moves the last-alert time. (The source also tests that the
      total is positive, which a positive no-helmet count already implies.) */
  function Decide(c: Counts, now: real, lastAlert: real, cooldown: real): (d: Decision)
    ensures d.fire <==> c.noHelmet > 0 && now - lastAlert > cooldown
    ensures d.lastAlert == if d.fire then now else lastAlert
  {
    var total := c.helmet + c.noHelmet;
    if total > 0 && c.noHelmet > 0 && now - lastAlert > cooldown then Decision(true, now)
    else Decision(false, lastAlert)
  }

  /** With the last alert at 0 and the configured cooldown of 10 seconds, a
      violation at 0, at 5 or at 10 is suppressed and one at 11 fires; after an alert
      at 1000, one at 1005 is suppressed and one at 1011 fires; helmet-only
      frames never fire. */
  lemma CooldownExamples(now: real, last: real)
    ensures !Decide(Counts(0, 2), 0.0, 0.0, AlertCooldown).fire
    ensures !Decide(Counts(0, 2), 5.0, 0.0, AlertCooldown).fire
    ensures !Decide(Counts(0, 2), 10.0, 0.0, AlertCooldown).fire
    ensures Decide(Counts(0, 2), 11.0, 0.0, AlertCooldown) == Decision(true, 11.0)
    ensures Decide(Counts(0, 2), 1000.0, 0.0, AlertCooldown) == Decision(true, 1000.0)
    ensures Decide(Counts(0, 2), 1005.0, 1000.0, AlertCooldown) == Decision(false, 1000.0)
    ensures Decide(Counts(0, 2), 1011.0, 1000.0, AlertCooldown) == Decision(true, 1011.0)
    ensures Decide(Counts(3, 0), now, last, AlertCooldown) == Decision(false, last)
  {
  }
}
