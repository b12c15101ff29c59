/**
 * `detect_device_type` (modul2.py): a free-text sysDescr, or `None`, is lower-cased
 * and matched against an ordered list of keywords; the first rule that matches gives
 * the device type.
 */
module Classifier {
  import opened Wrappers
  import opened PyStr

  /** The four labels the classifier can give. */
  const LABELS: set<string> := {"router", "switch", "server", "unknown"}

  /** One rule: the label it gives and the keywords any one of which triggers it. */
  datatype Rule = Rule(deviceType: string, keywords: seq<string>)

  /** The rules in the order they are tried. */
  const RULES: seq<Rule> := [
    Rule("router", ["router"]),
    Rule("switch", ["switch"]),
    Rule("server", ["server", "linux", "windows"])
  ]

  /** Some keyword of `rule` occurs in the (already lower-cased) description `d`. */
  predicate Matches(d: string, rule: Rule)
  {
    exists k :: 0 <= k < |rule.keywords| && Contains(d, rule.keywords[k])
  }

  /** The label of the first rule of `rules` that matches `d`, or "unknown". */
  function FirstMatch(rules: seq<Rule>, d: string): string
  {
    if rules == [] then "unknown"
    else if Matches(d, rules[0]) then rules[0].deviceType
    else FirstMatch(rules[1..], d)
  }

  /** The device type of a sysDescr: "unknown" for `None` or the empty string. */
  function DetectDeviceType(sysDescr: Option<string>): (t: string)
    ensures t in LABELS
    ensures sysDescr == None || sysDescr == Some("") ==> t == "unknown"
  {
    if sysDescr.None? || sysDescr.value == "" then "unknown"
    else
      var d := Lower(sysDescr.value);
      if Contains(d, "router") then "router"
      else if Contains(d, "switch") then "switch"
      else if Contains(d, "server") || Contains(d, "linux") || Contains(d, "windows") then "server"
      else "unknown"
  }

  /** When rule `k` is the first one that matches, its label is the answer. */
  lemma {:induction false} FirstMatchWins(rules: seq<Rule>, d: string, k: nat)
    requires k < |rules| && Matches(d, rules[k])
    requires forall j :: 0 <= j < k ==> !Matches(d, rules[j])
    ensures FirstMatch(rules, d) == rules[k].deviceType
  {
    if k > 0 {
      assert !Matches(d, rules[0]);
      FirstMatchWins(rules[1..], d, k - 1);
    }
  }

  /** When no rule matches, the answer is "unknown". */
  lemma {:induction false} FirstMatchNone(rules: seq<Rule>, d: string)
    requires forall j :: 0 <= j < |rules| ==> !Matches(d, rules[j])
    ensures FirstMatch(rules, d) == "unknown"
  {
    if rules != [] {
      assert !Matches(d, rules[0]);
      FirstMatchNone(rules[1..], d);
    }
  }

  /** The classifier is the ordered rule list applied to the lower-cased description. */
  lemma DetectFollowsRules(s: string)
    requires s != ""
    ensures DetectDeviceType(Some(s)) == FirstMatch(RULES, Lower(s))
  {
    var d := Lower(s);
    var r0, r1, r2 := RULES[0], RULES[1], RULES[2];
    assert Matches(d, r0) <==> Contains(d, "router") by {
      assert r0.keywords[0] == "router";
    }
    assert Matches(d, r1) <==> Contains(d, "switch") by {
      assert r1.keywords[0] == "switch";
    }
    assert Matches(d, r2) <==> Contains(d, "server") || Contains(d, "linux") || Contains(d, "windows") by {
      assert r2.keywords[0] == "server" && r2.keywords[1] == "linux" && r2.keywords[2] == "windows";
    }
    if Matches(d, r0) {
      FirstMatchWins(RULES, d, 0);
    } else if Matches(d, r1) {
      FirstMatchWins(RULES, d, 1);
    } else if Matches(d, r2) {
      FirstMatchWins(RULES, d, 2);
    } else {
      FirstMatchNone(RULES, d);
    }
  }

  /** Case does not matter: classifying `s` and classifying `s.lower()` agree. */
  lemma CaseInsensitive(s: string)
    ensures DetectDeviceType(Some(s)) == DetectDeviceType(Some(Lower(s)))
  {
    LowerIdempotent(s);
  }

  /** `s.lower()` of a concatenation is the concatenation of the lower-cased parts. */
  lemma LowerConcat(a: string, b: string)
    ensures Lower(a + b) == Lower(a) + Lower(b)
  {
    assert forall i :: 0 <= i < |a + b| ==> Lower(a + b)[i] == (Lower(a) + Lower(b))[i];
  }

  /**
   * First match wins: a description in which "router" occurs, in any letter case and
   * whatever else it says (switch, server, linux, windows), is a router.
   */
  lemma RouterWins(pre: string, word: string, post: string)
    requires Lower(word) == "router"
    ensures DetectDeviceType(Some(pre + word + post)) == "router"
  {
    LowerConcat(pre + word, post);
    LowerConcat(pre, word);
    assert Contains("router", "router");
    ContainsInContext(Lower(pre), "router", Lower(post), "router");
  }

  /** Without "router", "switch" in any letter case beats the server keywords. */
  lemma SwitchBeatsServer(pre: string, word: string, post: string)
    requires Lower(word) == "switch"
    requires !Contains(Lower(pre + word + post), "router")
    ensures DetectDeviceType(Some(pre + word + post)) == "switch"
  {
    LowerConcat(pre + word, post);
    LowerConcat(pre, word);
    assert Contains("switch", "switch");
    ContainsInContext(Lower(pre), "switch", Lower(post), "switch");
  }

  /** A Cisco IOS switch is classified as a switch. */
  lemma CiscoSwitchIsSwitch()
    ensures DetectDeviceType(Some("Cisco IOS Switch")) == "switch"
  {
    var pre, word := "Cisco IOS ", "Switch";
    assert pre + word + "" == "Cisco IOS Switch";
    assert Lower(word) == "switch" by {
      assert |Lower(word)| == 6;
    }
    var d := Lower(pre + word + "");
    assert forall i :: 0 <= i < |d| ==> d[i] != 'r' by {
      assert forall i :: 0 <= i < |pre + word + ""| ==> (pre + word + "")[i] !in {'r', 'R'};
    }
    MissingFirstChar(d, "router");
    SwitchBeatsServer(pre, word, "");
  }

  /** A Linux router is a router, not a server. */
  lemma LinuxRouterIsRouter()
    ensures DetectDeviceType(Some("Linux Router")) == "router"
  {
    var pre, word := "Linux ", "Router";
    assert pre + word + "" == "Linux Router";
    assert Lower(word) == "router" by {
      assert |Lower(word)| == 6;
    }
    RouterWins(pre, word, "");
  }
}
