/**
 * The chat-message texts of `pkg/clients/util_test.go`, run through the correlator.
 */
module ChatFixtures {
  import opened Wrappers
  import opened Correlator

  /** Every `[` of `s` after its first character follows a character that is not `\s`. */
  predicate NoSpaceBeforeBracket(s: string) {
    forall k :: 0 < k < |s| && s[k] == '[' ==> !IsRegexSpace(s[k - 1])
  }

  /** A selected match starts with `\s\[`. */
  lemma ParseOpens(s: string)
    ensures ParseSplit(s).Some? ==> Opens(s, ParseSplit(s).value.w)
  {
    ParseSplitSpec(s);
  }

  /**
   * Without white space before any `[` no `\s\[` exists, so the pattern cannot match and
   * parsing fails.
   */
  lemma NoSpaceBeforeBracketRejected(s: string)
    requires NoSpaceBeforeBracket(s)
    ensures ParseRegionAndAlertname(s).Err?
  {
    ParseCaptures(s);
    ParseOpens(s);
  }

  /** The layout of the chat alerts: `\n*[<severity>]* *[<region>]* <rest>`. */
  function ChatLayout(severity: string, region: string, rest: string): string {
    "\n*[" + severity + "]* *[" + region + "]* " + rest
  }

  /**
   * The chat layout puts `*` before both of its brackets, so when the three fields hold no
   * `[` the pattern, which needs white space there, rejects the text.
   */
  lemma ChatLayoutRejected(severity: string, region: string, rest: string)
    requires '[' !in severity && '[' !in region && '[' !in rest
    ensures ParseRegionAndAlertname(ChatLayout(severity, region, rest)).Err?
  {
    var s := ChatLayout(severity, region, rest);
    var r := 7 + |severity|;
    forall k | 0 <= k < |s| && k != 2 && k != r ensures s[k] != '[' {
      if 3 <= k < r - 4 {
        assert s[k] == severity[k - 3];
      } else if r + 1 <= k < r + 1 + |region| {
        assert s[k] == region[k - r - 1];
      } else if r + 4 + |region| <= k {
        assert s[k] == rest[k - r - 4 - |region|];
      }
    }
    assert s[1] == '*' && s[r - 1] == '*';
    NoSpaceBeforeBracketRejected(s);
  }

  /*
   * The four chat texts of the correlator's test, their free text written as a few groups
   * of short pieces so that each group can be checked on its own. The test expects each
   * to parse, yet each has `*` rather than white space before its `[`: the pattern
   * rejects all four.
   */
  const SlackTextPart1 := "VCenterRedundanc"
    + "yLostHAPolicyFau"
    + "lty - VC vc-b-0."
    + "cc.eu-nl-1.cloud"
  const SlackTextPart2 := ".sap has a fault"
    + "y AdmissionContr"
    + "olPolicy for clu"
    + "ster XYZ, failov"
  const SlackTextPart3 := "er will not work"
    + ".\n:fire: VC ... "
    + "\n"
  const SlackText := ChatLayout("CRITICAL", "ap-sa-1", SlackTextPart1 + SlackTextPart2 + SlackTextPart3)

  const SlackTextWithLinkPart1 := "*<https://alertm"
    + "anager.somewhere"
    + ".cloud.com/#/ale"
    + "rts?receiver=sla"
  const SlackTextWithLinkPart2 := "ck_api_critical|"
    + "OpenstackDatapat"
    + "hDown>* - Blackb"
    + "ox datapath test"
  const SlackTextWithLinkPart3 := "\n:fire: Datapath"
    + " maia_metrics is"
    + " down for 15 tim"
    + "es in a row. ..."
    + " \n"
  const SlackTextWithLink := ChatLayout("CRITICAL", "AP-JP-1", SlackTextWithLinkPart1 + SlackTextWithLinkPart2 + SlackTextWithLinkPart3)

  const SlackTextMultiPart1 := "NetworkApicProce"
    + "ssMaxMemoryUsedC"
    + "ritical - \n:fire"
    + ": Max memory 2.8"
  const SlackTextMultiPart2 := "17073152e+09 use"
    + "d by process nfm"
    + "/topology/pod-1/"
    + "node-000/sys/pro"
  const SlackTextMultiPart3 := "csys/proc-10560 "
    + "on apic host .. "
    + "\n"
  const SlackTextMulti := ChatLayout("CRITICAL - 6", "EU-RU-1", SlackTextMultiPart1 + SlackTextMultiPart2 + SlackTextMultiPart3)

  const SlackTextMultipleNoDescriptionRest := "NetworkApicProce"
    + "ssMaxMemoryUsedC"
    + "ritical - "
  const SlackTextMultipleNoDescription := ChatLayout("CRITICAL - 6", "EU-RU-1", SlackTextMultipleNoDescriptionRest)

  lemma SlackTextPart1Clean()
    ensures '[' !in SlackTextPart1
  {
    assert '[' !in "VCenterRedundanc";
    assert '[' !in "yLostHAPolicyFau";
    assert '[' !in "lty - VC vc-b-0.";
    assert '[' !in "cc.eu-nl-1.cloud";
  }

  lemma SlackTextPart2Clean()
    ensures '[' !in SlackTextPart2
  {
    assert '[' !in ".sap has a fault";
    assert '[' !in "y AdmissionContr";
    assert '[' !in "olPolicy for clu";
    assert '[' !in "ster XYZ, failov";
  }

  lemma SlackTextPart3Clean()
    ensures '[' !in SlackTextPart3
  {
    assert '[' !in "er will not work";
    assert '[' !in ".\n:fire: VC ... ";
    assert '[' !in "\n";
  }

  /** The text is rejected. */
  lemma SlackTextRejected()
    ensures ParseRegionAndAlertname(SlackText).Err?
  {
    SlackTextPart1Clean();
    SlackTextPart2Clean();
    SlackTextPart3Clean();
    ChatLayoutRejected("CRITICAL", "ap-sa-1", SlackTextPart1 + SlackTextPart2 + SlackTextPart3);
  }

  lemma SlackTextWithLinkPart1Clean()
    ensures '[' !in SlackTextWithLinkPart1
  {
    assert '[' !in "*<https://alertm";
    assert '[' !in "anager.somewhere";
    assert '[' !in ".cloud.com/#/ale";
    assert '[' !in "rts?receiver=sla";
  }

  lemma SlackTextWithLinkPart2Clean()
    ensures '[' !in SlackTextWithLinkPart2
  {
    assert '[' !in "ck_api_critical|";
    assert '[' !in "OpenstackDatapat";
    assert '[' !in "hDown>* - Blackb";
    assert '[' !in "ox datapath test";
  }

  lemma SlackTextWithLinkPart3Clean()
    ensures '[' !in SlackTextWithLinkPart3
  {
    assert '[' !in "\n:fire: Datapath";
    assert '[' !in " maia_metrics is";
    assert '[' !in " down for 15 tim";
    assert '[' !in "es in a row. ...";
    assert '[' !in " \n";
  }

  /** The text is rejected. */
  lemma SlackTextWithLinkRejected()
    ensures ParseRegionAndAlertname(SlackTextWithLink).Err?
  {
    SlackTextWithLinkPart1Clean();
    SlackTextWithLinkPart2Clean();
    SlackTextWithLinkPart3Clean();
    ChatLayoutRejected("CRITICAL", "AP-JP-1", SlackTextWithLinkPart1 + SlackTextWithLinkPart2 + SlackTextWithLinkPart3);
  }

  lemma SlackTextMultiPart1Clean()
    ensures '[' !in SlackTextMultiPart1
  {
    assert '[' !in "NetworkApicProce";
    assert '[' !in "ssMaxMemoryUsedC";
    assert '[' !in "ritical - \n:fire";
    assert '[' !in ": Max memory 2.8";
  }

  lemma SlackTextMultiPart2Clean()
    ensures '[' !in SlackTextMultiPart2
  {
    assert '[' !in "17073152e+09 use";
    assert '[' !in "d by process nfm";
    assert '[' !in "/topology/pod-1/";
    assert '[' !in "node-000/sys/pro";
  }

  lemma SlackTextMultiPart3Clean()
    ensures '[' !in SlackTextMultiPart3
  {
    assert '[' !in "csys/proc-10560 ";
    assert '[' !in "on apic host .. ";
    assert '[' !in "\n";
  }

  /** The text is rejected. */
  lemma SlackTextMultiRejected()
    ensures ParseRegionAndAlertname(SlackTextMulti).Err?
  {
    SlackTextMultiPart1Clean();
    SlackTextMultiPart2Clean();
    SlackTextMultiPart3Clean();
    ChatLayoutRejected("CRITICAL - 6", "EU-RU-1", SlackTextMultiPart1 + SlackTextMultiPart2 + SlackTextMultiPart3);
  }

  lemma SlackTextMultipleNoDescriptionRestClean()
    ensures '[' !in SlackTextMultipleNoDescriptionRest
  {
    assert '[' !in "NetworkApicProce";
    assert '[' !in "ssMaxMemoryUsedC";
    assert '[' !in "ritical - ";
  }

  /** The text is rejected. */
  lemma SlackTextMultipleNoDescriptionRejected()
    ensures ParseRegionAndAlertname(SlackTextMultipleNoDescription).Err?
  {
    SlackTextMultipleNoDescriptionRestClean();
    ChatLayoutRejected("CRITICAL - 6", "EU-RU-1", SlackTextMultipleNoDescriptionRest);
  }
}
