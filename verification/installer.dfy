/** The macOS installer's privileged command, read back through both quoting layers. */
module Installer {
  import Bytes
  import opened Shell
  import opened Quoting

  const DIR: string := "/usr/local/lib/lanway"
  const CORE := DIR + "/lanway-core"
  const HELPER := DIR + "/lanway-helper"
  const SUDOERS: string := "/etc/sudoers.d/lanway"
  const AND: string := " && "

  // The fixed text of the nine commands, cut at the quoted arguments.
  const MKDIR := "mkdir -p " + DIR
  const INSTALL := "install -m 0755 " + "-o root -g wheel "
  const TO_CORE := " " + CORE
  const XATTR := "(xattr -dr " + "com.apple.quarantine " + CORE + " 2>/dev/null " + "|| true)"
  const PRINTF: string := "printf %s "
  const DECODE := " | /usr/bin/base64 " + "-D > " + HELPER
  const CHOWN := "chown root:wheel " + HELPER
  const CHMOD := "chmod 0755 " + HELPER
  const ECHO: string := "echo "
  const TO_SUDOERS := " > " + SUDOERS
  const CHMOD_RULE := "chmod 0440 " + SUDOERS
  const VISUDO := "visudo -cf " + SUDOERS + " || rm -f " + SUDOERS

  function Join(list: seq<string>, separator: string): string {
    if list == [] then "" else if |list| == 1 then list[0]
    else list[0] + separator + Join(list[1..], separator)
  }

  /** The command _ensureMacHelper assembles. */
  function Install(core: string, helper: string, rule: string): string {
    Join([MKDIR, INSTALL + Sh(core) + TO_CORE, XATTR, PRINTF + Sh(helper) + DECODE, CHOWN, CHMOD,
          ECHO + Sh(rule) + TO_SUDOERS, CHMOD_RULE, VISUDO], AND)
  }

  // What follows the literal in the script handed to osascript.
  const PRIVILEGES := " with administrator " + "privileges with prompt " + "\"Lanway needs " +
                      "permission once " + "to route your " + "traffic.\""

  /** The same text as four fixed parts around three arguments. */
  function Lead(): string { MKDIR + AND + INSTALL }
  function AfterCore(): string { TO_CORE + AND + (XATTR + AND + PRINTF) }
  function AfterHelper(): string { DECODE + AND + (CHOWN + AND + (CHMOD + AND + ECHO)) }
  function AfterRule(): string { TO_SUDOERS + AND + (CHMOD_RULE + AND + VISUDO) }

  function Parts(core: string, helper: string, rule: string): seq<Part> {
    [Part(Lead(), core), Part(AfterCore(), helper), Part(AfterHelper(), rule)]
  }

  // ---- joining ----

  lemma JoinStep(first: string, rest: seq<string>, separator: string)
    requires rest != []
    ensures Join([first] + rest, separator) == first + separator + Join(rest, separator)
  {
    assert ([first] + rest)[1..] == rest;
  }

  lemma BeforeArgument(c: string, b: string, rest: string)
    ensures c + AND + (b + rest) == (c + AND + b) + rest
  {
  }

  lemma AroundArgument(b: string, q: string, t: string, rest: string)
    ensures (b + q + t) + AND + rest == b + (q + (t + AND + rest))
  {
  }

  /** Nine joined commands, three of them holding an argument, regrouped around the arguments. */
  lemma Regrouped(c0: string, b1: string, q1: string, t1: string, c2: string, b3: string, q3: string, t3: string,
                  c4: string, c5: string, b6: string, q6: string, t6: string, c7: string, c8: string)
    ensures Join([c0, b1 + q1 + t1, c2, b3 + q3 + t3, c4, c5, b6 + q6 + t6, c7, c8], AND) ==
      (c0 + AND + b1) + (q1 + ((t1 + AND + (c2 + AND + b3)) + (q3 + ((t3 + AND + (c4 + AND + (c5 + AND + b6))) +
      (q6 + (t6 + AND + (c7 + AND + c8)))))))
  {
    var r6 := q6 + (t6 + AND + (c7 + AND + c8));
    var r3 := q3 + ((t3 + AND + (c4 + AND + (c5 + AND + b6))) + r6);
    var a1, a3, a6 := b1 + q1 + t1, b3 + q3 + t3, b6 + q6 + t6;
    FromSeventh(b6, q6, t6, c7, c8);
    FromFourth(b3, q3, t3, c4, c5, b6, r6, [a6, c7, c8]);
    assert [a3, c4, c5] + [a6, c7, c8] == [a3, c4, c5, a6, c7, c8];
    FromFirst(c0, b1, q1, t1, c2, b3, r3, [a3, c4, c5, a6, c7, c8]);
    assert [c0, a1, c2] + [a3, c4, c5, a6, c7, c8] == [c0, a1, c2, a3, c4, c5, a6, c7, c8];
  }

  lemma FromSeventh(b: string, q: string, t: string, c: string, d: string)
    ensures Join([b + q + t, c, d], AND) == b + (q + (t + AND + (c + AND + d)))
  {
    JoinStep(c, [d], AND);
    JoinStep(b + q + t, [c, d], AND);
    AroundArgument(b, q, t, c + AND + d);
  }

  lemma FromFourth(b: string, q: string, t: string, c: string, d: string, e: string, rest: string, list: seq<string>)
    requires list != [] && Join(list, AND) == e + rest
    ensures Join([b + q + t, c, d] + list, AND) == b + (q + ((t + AND + (c + AND + (d + AND + e))) + rest))
  {
    JoinStep(d, list, AND);
    BeforeArgument(d, e, rest);
    JoinStep(c, [d] + list, AND);
    BeforeArgument(c, d + AND + e, rest);
    JoinStep(b + q + t, [c] + ([d] + list), AND);
    AroundArgument(b, q, t, (c + AND + (d + AND + e)) + rest);
    BeforeArgument(t, c + AND + (d + AND + e), rest);
    assert [b + q + t, c, d] + list == [b + q + t] + ([c] + ([d] + list));
  }

  lemma FromFirst(c0: string, b: string, q: string, t: string, c: string, e: string, rest: string, list: seq<string>)
    requires list != [] && Join(list, AND) == e + rest
    ensures Join([c0, b + q + t, c] + list, AND) == (c0 + AND + b) + (q + ((t + AND + (c + AND + e)) + rest))
  {
    JoinStep(c, list, AND);
    BeforeArgument(c, e, rest);
    JoinStep(b + q + t, [c] + list, AND);
    AroundArgument(b, q, t, (c + AND + e) + rest);
    BeforeArgument(t, c + AND + e, rest);
    JoinStep(c0, [b + q + t] + ([c] + list), AND);
    BeforeArgument(c0, b, q + ((t + AND + (c + AND + e)) + rest));
    assert [c0, b + q + t, c] + list == [c0] + ([b + q + t] + ([c] + list));
  }

  lemma InstallIsCommand(core: string, helper: string, rule: string)
    ensures Install(core, helper, rule) == Command(Parts(core, helper, rule), AfterRule())
  {
    Regrouped(MKDIR, INSTALL, Sh(core), TO_CORE, XATTR, PRINTF, Sh(helper), DECODE, CHOWN, CHMOD, ECHO, Sh(rule),
              TO_SUDOERS, CHMOD_RULE, VISUDO);
    Unfolded(Lead(), core, AfterCore(), helper, AfterHelper(), rule, AfterRule());
  }

  lemma Unfolded(a: string, p: string, b: string, q: string, c: string, r: string, last: string)
    ensures Command([Part(a, p), Part(b, q), Part(c, r)], last) ==
      a + (Sh(p) + (b + (Sh(q) + (c + (Sh(r) + last)))))
  {
    var third: seq<Part> := [Part(c, r)];
    assert Command(third, last) == c + (Sh(r) + last) by { assert third[1..] == []; }
    var second := [Part(b, q)] + third;
    assert second[1..] == third;
    assert ([Part(a, p)] + second)[1..] == second;
    assert [Part(a, p)] + second == [Part(a, p), Part(b, q), Part(c, r)];
  }

  // ---- the fixed text is read without quoting ----

  lemma InertJoin(a: string, b: string)
    requires AllInert(a) && AllInert(b)
    ensures AllInert(a + b)
  {
  }

  lemma PathsInert()
    ensures AllInert(DIR) && AllInert(CORE) && AllInert(HELPER) && AllInert(SUDOERS) && AllInert(AND)
  {
    assert AllInert("/lanway-core") && AllInert("/lanway-helper");
    InertJoin(DIR, "/lanway-core");
    InertJoin(DIR, "/lanway-helper");
  }

  lemma InertTwo(a: string, b: string, c: string)
    requires AllInert(a) && AllInert(b) && AllInert(c)
    ensures AllInert(a + b + c)
  {
    InertJoin(a, b);
    InertJoin(a + b, c);
  }

  lemma LeadBlank()
    ensures EndsBlank(Lead())
  {
    PathsInert();
    assert AllInert("mkdir -p ") && AllInert("install -m 0755 ") && AllInert("-o root -g wheel ");
    InertJoin("mkdir -p ", DIR);
    InertJoin("install -m 0755 ", "-o root -g wheel ");
    InertTwo(MKDIR, AND, INSTALL);
    LastOf("install -m 0755 ", "-o root -g wheel ");
    LastOf(MKDIR + AND, INSTALL);
  }

  lemma LastOf(a: string, b: string)
    requires b != ""
    ensures (a + b) != "" && (a + b)[|a + b| - 1] == b[|b| - 1]
  {
  }

  lemma FirstOf(a: string, b: string)
    requires a != ""
    ensures (a + b) != "" && (a + b)[0] == a[0]
  {
  }

  lemma XattrInert()
    ensures AllInert(XATTR)
  {
    PathsInert();
    assert AllInert("(xattr -dr ") && AllInert("com.apple.quarantine ");
    assert AllInert(" 2>/dev/null ") && AllInert("|| true)");
    InertJoin("(xattr -dr ", "com.apple.quarantine ");
    InertJoin("(xattr -dr " + "com.apple.quarantine ", CORE);
    InertJoin("(xattr -dr " + "com.apple.quarantine " + CORE, " 2>/dev/null ");
    InertJoin("(xattr -dr " + "com.apple.quarantine " + CORE + " 2>/dev/null ", "|| true)");
  }

  lemma AfterCoreBlank()
    ensures StartsBlank(AfterCore()) && EndsBlank(AfterCore())
  {
    PathsInert();
    XattrInert();
    assert AllInert(" ") && AllInert(PRINTF);
    InertJoin(" ", CORE);
    InertTwo(XATTR, AND, PRINTF);
    InertTwo(TO_CORE, AND, XATTR + AND + PRINTF);
    FirstOf(" ", CORE);
    FirstOf(TO_CORE, AND);
    FirstOf(TO_CORE + AND, XATTR + AND + PRINTF);
    LastOf(XATTR + AND, PRINTF);
    LastOf(TO_CORE + AND, XATTR + AND + PRINTF);
  }

  lemma HelperCommandsInert()
    ensures AllInert(DECODE) && AllInert(CHOWN) && AllInert(CHMOD) && AllInert(ECHO)
  {
    PathsInert();
    assert AllInert(" | /usr/bin/base64 ") && AllInert("-D > ") && AllInert("chown root:wheel ");
    assert AllInert("chmod 0755 ") && AllInert(ECHO);
    InertTwo(" | /usr/bin/base64 ", "-D > ", HELPER);
    InertJoin("chown root:wheel ", HELPER);
    InertJoin("chmod 0755 ", HELPER);
  }

  lemma AfterHelperBlank()
    ensures StartsBlank(AfterHelper()) && EndsBlank(AfterHelper())
  {
    PathsInert();
    HelperCommandsInert();
    InertTwo(CHMOD, AND, ECHO);
    InertTwo(CHOWN, AND, CHMOD + AND + ECHO);
    InertTwo(DECODE, AND, CHOWN + AND + (CHMOD + AND + ECHO));
    FirstOf(" | /usr/bin/base64 ", "-D > ");
    FirstOf(" | /usr/bin/base64 " + "-D > ", HELPER);
    FirstOf(DECODE, AND);
    FirstOf(DECODE + AND, CHOWN + AND + (CHMOD + AND + ECHO));
    LastOf(CHMOD + AND, ECHO);
    LastOf(CHOWN + AND, CHMOD + AND + ECHO);
    LastOf(DECODE + AND, CHOWN + AND + (CHMOD + AND + ECHO));
  }

  lemma AfterRuleBlank()
    ensures StartsBlank(AfterRule())
  {
    PathsInert();
    assert AllInert(" > ") && AllInert("chmod 0440 ") && AllInert("visudo -cf ") && AllInert(" || rm -f ");
    InertJoin(" > ", SUDOERS);
    InertJoin("chmod 0440 ", SUDOERS);
    InertTwo("visudo -cf ", SUDOERS, " || rm -f ");
    InertJoin("visudo -cf " + SUDOERS + " || rm -f ", SUDOERS);
    InertTwo(CHMOD_RULE, AND, VISUDO);
    InertTwo(TO_SUDOERS, AND, CHMOD_RULE + AND + VISUDO);
    FirstOf(" > ", SUDOERS);
    FirstOf(TO_SUDOERS, AND);
    FirstOf(TO_SUDOERS + AND, CHMOD_RULE + AND + VISUDO);
  }

  lemma ExpectedThree(a: string, p: string, b: string, q: string, c: string, r: string, last: string)
    ensures Expected([Part(a, p), Part(b, q), Part(c, r)], last) ==
      FixedTokens(a) + ([Word(p, false)] + (FixedTokens(b) + ([Word(q, false)] + (FixedTokens(c) +
      ([Word(r, false)] + FixedTokens(last))))))
  {
    var third: seq<Part> := [Part(c, r)];
    assert Expected(third, last) == FixedTokens(c) + ([Word(r, false)] + FixedTokens(last)) by {
      assert third[1..] == [];
    }
    var second := [Part(b, q)] + third;
    assert second[1..] == third;
    assert ([Part(a, p)] + second)[1..] == second;
    assert [Part(a, p)] + second == [Part(a, p), Part(b, q), Part(c, r)];
  }

  lemma ThreeArguments(a: string, p: string, b: string, q: string, c: string, r: string, last: string)
    requires EndsBlank(a) && StartsBlank(b) && EndsBlank(b) && StartsBlank(c) && EndsBlank(c) && StartsBlank(last)
    ensures Tokens(Command([Part(a, p), Part(b, q), Part(c, r)], last)) ==
      Bytes.Some(FixedTokens(a) + ([Word(p, false)] + (FixedTokens(b) + ([Word(q, false)] + (FixedTokens(c) +
                 ([Word(r, false)] + FixedTokens(last)))))))
  {
    CommandTokens([Part(a, p), Part(b, q), Part(c, r)], last);
    ExpectedThree(a, p, b, q, c, r, last);
  }

  /** For every core path, helper script and sudoers rule, whatever characters they hold,
      AppleScript decodes the script's literal to the install command, and the shell then finds
      the fixed commands with exactly those three strings as single, unexpanded words. */
  lemma InstallArgumentsRecovered(core: string, helper: string, rule: string)
    ensures ReadLiteral(AppleScriptString(Install(core, helper, rule)) + PRIVILEGES) ==
      Literal(Install(core, helper, rule), PRIVILEGES)
    ensures Tokens(Install(core, helper, rule)) ==
      Bytes.Some(FixedTokens(Lead()) + ([Word(core, false)] +
                 (FixedTokens(AfterCore()) + ([Word(helper, false)] +
                 (FixedTokens(AfterHelper()) + ([Word(rule, false)] + FixedTokens(AfterRule())))))))
  {
    AppleScriptRoundTrip(Install(core, helper, rule), PRIVILEGES);
    InstallIsCommand(core, helper, rule);
    LeadBlank();
    AfterCoreBlank();
    AfterHelperBlank();
    AfterRuleBlank();
    ThreeArguments(Lead(), core, AfterCore(), helper, AfterHelper(), rule, AfterRule());
  }
}
