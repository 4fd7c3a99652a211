/**
 * The project-pitch templates (src/components/sections/ProposalsSection.tsx and
 * the shipped list in src/lib/data/proposals.ts): choosing a template fills
 * the contact form's prefill with a description and a role.
 */
module Proposals {
  import opened Wrappers
  import opened JsStrings

  /** A template, without its icon and gradient. */
  datatype Proposal = Proposal(name: string, audience: string, summary: string, outcome: string)

  /** `PrefillData`: every field is optional. */
  datatype Prefill = Prefill(
    name: Option<string>,
    email: Option<string>,
    organization: Option<string>,
    role: Option<string>,
    projectDescription: Option<string>)

  const OutcomeSeparator: string := "\n\nOutcome: "

  /** The shipped templates, in display order. */
  const Templates: seq<Proposal> := [
    Proposal("Grant-ready Energy Narrative", "Facilities & Sustainability Teams",
             "Turn campus energy telemetry into a grant-ready narrative and visualization.",
             "4-week prototype + data narrative and grant-ready technical appendix."),
    Proposal("Student-Partner Match Pilot", "EdTech Program Leads",
             "Automated, privacy-preserving matching to pair students and partners for projects.",
             "Pilot with teacher review workflow and admin time metrics."),
    Proposal("Civic Sensing with Guardrails", "Coalitions & Program Directors",
             "Deploy ethical sensing experiments with clear consent and audit trails.",
             "Transparent pilot, policy-ready documentation, and risk assessment."),
    Proposal("Rapid Startup Prototype", "Impact Startup Founders",
             "Build a demo that proves the core value prop without vendor lock-in.",
             "Week-by-week prototype that you own and can iterate on."),
    Proposal("Privacy-first Data Pipeline", "Institutional IT & Data Teams",
             "Secure ingestion, anonymization and governance for sensitive data.",
             "Hardened ETL + docs for compliance (FERPA, procurement-ready)."),
    Proposal("Human-in-the-loop Dashboard", "Teachers & Program Managers",
             "A dashboard that surfaces model suggestions but prioritizes human review.",
             "Pilot dashboard + training materials for human reviewers.")
  ]

  /** The role guessed from the audience: a director before a manager, otherwise "Other". */
  function RoleFor(audience: string): string
  {
    if Contains(audience, "Director") then "Program Director"
    else if Contains(audience, "Manager") then "Program Manager"
    else "Other"
  }

  /** `handleUseTemplate`: the prefill set when a template is chosen. */
  function TemplatePrefill(p: Proposal): Prefill
  {
    Prefill(None, None, None, Some(RoleFor(p.audience)), Some(p.summary + OutcomeSeparator + p.outcome))
  }

  /**
   * The role rules, in terms of where the words occur: "Director" anywhere
   * gives "Program Director"; otherwise "Manager" anywhere gives "Program
   * Manager"; any other audience gives "Other".
   */
  lemma RoleRules(audience: string)
    ensures RoleFor(audience) == "Program Director" <==> exists k :: OccursAt(audience, "Director", k)
    ensures RoleFor(audience) == "Program Manager" <==>
              (!exists k :: OccursAt(audience, "Director", k)) && exists k :: OccursAt(audience, "Manager", k)
    ensures RoleFor(audience) == "Other" <==>
              (!exists k :: OccursAt(audience, "Director", k)) && !exists k :: OccursAt(audience, "Manager", k)
  {
    ContainsIff(audience, "Director");
    ContainsIff(audience, "Manager");
  }

  /**
   * A chosen template sets only the description and the role the audience
   * gives; the description is exactly the summary, the separator line and
   * the outcome, each read back at its place.
   */
  lemma TemplatePrefillSpec(p: Proposal)
    ensures var pre := TemplatePrefill(p);
            && pre.name.None? && pre.email.None? && pre.organization.None?
            && pre.role == Some(RoleFor(p.audience))
            && pre.role.value in {"Program Director", "Program Manager", "Other"}
            && pre.projectDescription.Some?
            && |pre.projectDescription.value| == |p.summary| + |OutcomeSeparator| + |p.outcome|
            && StartsWith(pre.projectDescription.value, p.summary)
            && EndsWith(pre.projectDescription.value, p.outcome)
            && pre.projectDescription.value[|p.summary|..|p.summary| + |OutcomeSeparator|] == OutcomeSeparator
  {
    var d := p.summary + OutcomeSeparator + p.outcome;
    assert d[..|p.summary|] == p.summary;
    assert d[|d| - |p.outcome|..] == p.outcome;
    assert d[|p.summary|..|p.summary| + |OutcomeSeparator|] == OutcomeSeparator;
  }

  /** A word whose first letter does not occur in a text does not occur in it. */
  lemma {:induction false} FirstLetterAbsent(s: string, word: string)
    requires word != [] && word[0] !in s
    ensures !Contains(s, word)
    decreases |s|
  {
    if s != [] {
      FirstLetterAbsent(s[1..], word);
    }
  }

  /** On the shipped data: the coalitions' template asks for a program director. */
  lemma DirectorsRole()
    ensures RoleFor(Templates[2].audience) == "Program Director"
  {
    var a: string := "Coalitions & Program Directors";
    assert a[21..29] == "Director";
    assert OccursAt(a, "Director", 21);
    ContainsIff(a, "Director");
  }

  /** An audience naming a manager and no director asks for a program manager. */
  lemma ManagerOnly(a: string, k: nat)
    requires 'D' !in a && OccursAt(a, "Manager", k)
    ensures RoleFor(a) == "Program Manager"
  {
    FirstLetterAbsent(a, "Director");
    ContainsIff(a, "Manager");
  }

  /** On the shipped data: the teachers' template asks for a program manager. */
  lemma ManagersRole()
    ensures RoleFor(Templates[5].audience) == "Program Manager"
  {
    var a: string := "Teachers & Program Managers";
    assert a[19..26] == "Manager";
    ManagerOnly(a, 19);
  }
}
