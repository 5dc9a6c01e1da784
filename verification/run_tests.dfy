/**
  The entry point of the test suite (tests/run_tests.py): three switches on
  the command line select how references are (re)generated. Each switch
  that is present sets the policy flags of the harness and is removed from
  sys.argv before the unit-test runner sees the arguments.
 */
module RunTests {
  import opened TestTranscribe

  const Generate := "--generate"
  const GenerateNew := "--generate_new"
  const GenerateAll := "--generate_all"

  predicate IsSwitch(a: string) {
    a == Generate || a == GenerateNew || a == GenerateAll
  }

  /** The policy flags together with the argument list. */
  datatype Invocation = Invocation(policy: Policy, argv: seq<string>)

  /** list.remove(x), called only when `x` is present: the first occurrence goes. */
  function RemoveFirst(s: seq<string>, x: string): seq<string> {
    if s == [] then []
    else if s[0] == x then s[1..]
    else [s[0]] + RemoveFirst(s[1..], x)
  }

  /** `--generate`: references may be created when missing. */
  function OnGenerate(inv: Invocation): Invocation {
    if Generate in inv.argv
    then Invocation(inv.policy.(failIfReferenceNotFound := false), RemoveFirst(inv.argv, Generate))
    else inv
  }

  /** `--generate_new`: the same, and inputs whose references all exist are skipped. */
  function OnGenerateNew(inv: Invocation): Invocation {
    if GenerateNew in inv.argv
    then Invocation(inv.policy.(generateNewOnly := true, failIfReferenceNotFound := false), RemoveFirst(inv.argv, GenerateNew))
    else inv
  }

  /** `--generate_all`: every reference is written again. */
  function OnGenerateAll(inv: Invocation): Invocation {
    if GenerateAll in inv.argv
    then Invocation(inv.policy.(generateAll := true, failIfReferenceNotFound := false), RemoveFirst(inv.argv, GenerateAll))
    else inv
  }

  /** The three tests of the __main__ block, in their order. */
  function HandleFlags(inv: Invocation): Invocation {
    OnGenerateAll(OnGenerateNew(OnGenerate(inv)))
  }

  /** The switches present in `argv`, once each. */
  function Present(argv: seq<string>): multiset<string> {
    (if Generate in argv then multiset{Generate} else multiset{})
    + (if GenerateNew in argv then multiset{GenerateNew} else multiset{})
    + (if GenerateAll in argv then multiset{GenerateAll} else multiset{})
  }

  /** The arguments that are not switches, in order. */
  function Others(argv: seq<string>): seq<string> {
    if argv == [] then []
    else if IsSwitch(argv[0]) then Others(argv[1..])
    else [argv[0]] + Others(argv[1..])
  }

  /** Where `x` first occurs in `s`. */
  function FirstIndex(s: seq<string>, x: string): (i: nat)
    requires x in s
    ensures i < |s| && s[i] == x && x !in s[..i]
  {
    if s[0] == x then 0
    else
      var i := 1 + FirstIndex(s[1..], x);
      assert s[..i] == [s[0]] + s[1..][..i - 1];
      i
  }

  /** list.remove takes out the first occurrence and keeps everything else in order. */
  lemma {:induction false} RemoveFirstRemovesFirst(s: seq<string>, x: string)
    requires x in s
    ensures RemoveFirst(s, x) == s[..FirstIndex(s, x)] + s[FirstIndex(s, x) + 1..]
  {
    if s[0] != x {
      RemoveFirstRemovesFirst(s[1..], x);
      var i := FirstIndex(s[1..], x);
      assert s[..i + 1] == [s[0]] + s[1..][..i];
      assert s[i + 2..] == s[1..][i + 1..];
    }
  }

  lemma {:induction false} RemoveFirstMultiset(s: seq<string>, x: string)
    requires x in s
    ensures multiset(RemoveFirst(s, x)) == multiset(s) - multiset{x}
    ensures |RemoveFirst(s, x)| == |s| - 1
  {
    if s[0] != x {
      RemoveFirstMultiset(s[1..], x);
      assert s == [s[0]] + s[1..];
    } else {
      assert s == [s[0]] + s[1..];
    }
  }

  lemma {:induction false} RemoveSwitchKeepsOthers(s: seq<string>, x: string)
    requires IsSwitch(x)
    ensures Others(RemoveFirst(s, x)) == Others(s)
  {
    if s != [] && s[0] != x {
      RemoveSwitchKeepsOthers(s[1..], x);
      assert RemoveFirst(s, x)[1..] == RemoveFirst(s[1..], x);
    }
  }

  /** Removing one switch leaves the presence of every other argument as it was. */
  lemma RemoveFirstKeepsOtherTokens(s: seq<string>, x: string, y: string)
    requires x in s && y != x
    ensures y in RemoveFirst(s, x) <==> y in s
  {
    RemoveFirstMultiset(s, x);
    assert y in multiset(RemoveFirst(s, x)) <==> y in multiset(s);
  }

  /**
    Starting from the defaults, a switch that is present sets its flag and
    clears failIfReferenceNotFound; `--generate` alone changes nothing else.
    The policy is lenient exactly when some switch was given.
   */
  lemma FlagsFromDefaults(argv: seq<string>)
    ensures HandleFlags(Invocation(Defaults, argv)).policy.failIfReferenceNotFound
            <==> !(Generate in argv || GenerateNew in argv || GenerateAll in argv)
    ensures HandleFlags(Invocation(Defaults, argv)).policy.generateNewOnly <==> GenerateNew in argv
    ensures HandleFlags(Invocation(Defaults, argv)).policy.generateAll <==> GenerateAll in argv
    ensures Lenient(HandleFlags(Invocation(Defaults, argv)).policy)
            <==> Generate in argv || GenerateNew in argv || GenerateAll in argv
  {
    MembershipSurvives(Invocation(Defaults, argv));
  }

  /** The later switches are still seen after the earlier ones are removed. */
  lemma MembershipSurvives(inv: Invocation)
    ensures GenerateNew in OnGenerate(inv).argv <==> GenerateNew in inv.argv
    ensures GenerateAll in OnGenerate(inv).argv <==> GenerateAll in inv.argv
    ensures GenerateAll in OnGenerateNew(OnGenerate(inv)).argv <==> GenerateAll in inv.argv
  {
    if Generate in inv.argv {
      RemoveFirstKeepsOtherTokens(inv.argv, Generate, GenerateNew);
      RemoveFirstKeepsOtherTokens(inv.argv, Generate, GenerateAll);
    }
    var mid := OnGenerate(inv);
    if GenerateNew in mid.argv {
      RemoveFirstKeepsOtherTokens(mid.argv, GenerateNew, GenerateAll);
    }
  }

  /** One switch test: the switch, when present, loses one occurrence and nothing else changes. */
  lemma StepRemovesSwitch(argv: seq<string>, x: string)
    requires IsSwitch(x)
    ensures var r := if x in argv then RemoveFirst(argv, x) else argv;
            multiset(r) + (if x in argv then multiset{x} else multiset{}) == multiset(argv)
            && |r| == |argv| - (if x in argv then 1 else 0)
            && Others(r) == Others(argv)
  {
    if x in argv {
      RemoveFirstMultiset(argv, x);
      assert multiset{x} <= multiset(argv);
      RemoveSwitchKeepsOthers(argv, x);
    }
  }

  /**
    One occurrence of every switch present is removed, so argv shrinks by
    the number of distinct switches given, and every other argument keeps
    its place relative to the others.
   */
  lemma SwitchesRemovedOnce(inv: Invocation)
    ensures multiset(HandleFlags(inv).argv) + Present(inv.argv) == multiset(inv.argv)
    ensures |HandleFlags(inv).argv| == |inv.argv| - |Present(inv.argv)|
    ensures Others(HandleFlags(inv).argv) == Others(inv.argv)
  {
    MembershipSurvives(inv);
    var a0 := inv.argv;
    var a1 := OnGenerate(inv).argv;
    var a2 := OnGenerateNew(OnGenerate(inv)).argv;
    var a3 := HandleFlags(inv).argv;
    assert a1 == if Generate in a0 then RemoveFirst(a0, Generate) else a0;
    assert a2 == if GenerateNew in a1 then RemoveFirst(a1, GenerateNew) else a1;
    assert a3 == if GenerateAll in a2 then RemoveFirst(a2, GenerateAll) else a2;
    StepRemovesSwitch(a0, Generate);
    StepRemovesSwitch(a1, GenerateNew);
    StepRemovesSwitch(a2, GenerateAll);
    var g := if Generate in a0 then multiset{Generate} else multiset{};
    var n := if GenerateNew in a0 then multiset{GenerateNew} else multiset{};
    var l := if GenerateAll in a0 then multiset{GenerateAll} else multiset{};
    assert Present(a0) == g + n + l;
    assert multiset(a3) + l + n + g == multiset(a0);
  }

  /** The resulting flags depend only on which switches occur, not on where. */
  lemma FlagsIgnoreOrder(p: Policy, a: seq<string>, b: seq<string>)
    requires multiset(a) == multiset(b)
    ensures HandleFlags(Invocation(p, a)).policy == HandleFlags(Invocation(p, b)).policy
  {
    MembershipSurvives(Invocation(p, a));
    MembershipSurvives(Invocation(p, b));
    assert Generate in a <==> Generate in multiset(b);
    assert GenerateNew in a <==> GenerateNew in multiset(b);
    assert GenerateAll in a <==> GenerateAll in multiset(b);
  }

  /**
    Matching is by whole argument: an argument list in which no argument is
    exactly one of the three switches leaves the policy and the list as they were.
   */
  lemma ExactMatching(inv: Invocation)
    requires forall a :: a in inv.argv ==> !IsSwitch(a)
    ensures HandleFlags(inv) == inv
  {
  }

  /** The state of the process: the flags of the harness module and sys.argv. */
  class Process {
    var failIfReferenceNotFound: bool
    var generateNewOnly: bool
    var generateAll: bool
    var argv: seq<string>

    /** The module-wide defaults, with the arguments the interpreter was started with. */
    constructor (argv: seq<string>)
      ensures Flags() == Defaults && this.argv == argv
    {
      failIfReferenceNotFound, generateNewOnly, generateAll := true, false, false;
      this.argv := argv;
    }

    function Flags(): Policy
      reads this
    {
      Policy(failIfReferenceNotFound, generateNewOnly, generateAll)
    }

    /** The __main__ block before unittest.main(): consume the three switches. */
    method HandleGenerationFlags()
      modifies this
      ensures Invocation(Flags(), argv) == HandleFlags(Invocation(old(Flags()), old(argv)))
    {
      if Generate in argv {
        failIfReferenceNotFound := false;
        argv := RemoveFirst(argv, Generate);
      }
      if GenerateNew in argv {
        generateNewOnly := true;
        failIfReferenceNotFound := false;
        argv := RemoveFirst(argv, GenerateNew);
      }
      if GenerateAll in argv {
        generateAll := true;
        failIfReferenceNotFound := false;
        argv := RemoveFirst(argv, GenerateAll);
      }
    }
  }
}
