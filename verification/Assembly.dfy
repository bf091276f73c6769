/** The Federation Assembly (src/assembly.rs): membership, electorate snapshots, votes and terminal finalization.

    A proposal id is modelled by what it hashes, an electorate reference by the electorate. */
module Assembly {
  import opened Wrappers
  import Wire
  import Utf8

  const MAX_ASSEMBLY_MEMBERS := 1_024
  const MAX_ASSEMBLY_PROPOSALS := 1_024
  const MAX_ASSEMBLY_ADVISORIES := 64
  const MAX_PROPOSAL_TITLE_BYTES := 256
  const MAX_PROPOSAL_SUMMARY_BYTES := 8_192
  const MAX_SEQUENCE: nat := 0xFFFF_FFFF_FFFF_FFFF

  /** Normalization form C, and whether the text of a draft fits a canonical encoding. */
  datatype Setting = Setting(nfc: string -> string, encodable: Draft -> bool)

  datatype MemberStatus = Active | Withdrawn

  datatype Application = Application(memberId: string, subject: string, node: Option<string>, localOptIn: bool)

  datatype Member = Member(subject: string, node: Option<string>, status: MemberStatus)

  datatype Kind = ProtocolAmendment | CharterAmendment | AdvisoryResolution | ForkProposal

  datatype Compatibility = BackwardCompatible | Breaking | NotApplicable

  /** Effects a draft may declare; each contradicts an invariant of the charter. */
  datatype Effect =
    | MemberLocalAuthorityMutation | NetworkMembershipGrantsAssemblyMembership | RemoteGovernanceMutation
    | RemoteEvidencePromotion | RemoteVoteCreation | RemoteCapabilityInstallation | RemoteHistoryRewrite
    | RemoteCitizenshipMutation | RemoteArbitraryExecution | RemoteLocalAuthorityClaim
    | ForeignImportBecomesAuthority | SecretsInSemanticState | RuntimeConstitutionOverride

  datatype Draft = Draft(
    proposer: string, title: string, summary: string, kind: Kind, compatibility: Compatibility, effects: set<Effect>)

  datatype ProposalId = ProposalId(sequence: nat, draft: Draft, electorate: set<string>, size: nat)

  datatype Status = Open | ForkRequired | WithdrawnByProposer

  datatype Choice = Yes | No | Abstain

  datatype Advisory = Advisory(fromNexus: bool, node: Option<string>, reportRef: string)

  datatype Proposal = Proposal(
    sequence: nat, draft: Draft, electorate: set<string>, size: nat, status: Status,
    votes: map<string, Choice>, advisories: seq<Advisory>)

  datatype Outcome = Accepted | Rejected | WithdrawnOutcome | ForkRequiredOutcome | ForkEndorsed

  datatype Receipt = Receipt(
    proposal: ProposalId, outcome: Outcome, electorateSize: nat, yes: nat, no: nat, abstain: nat,
    quorumRequired: nat, quorumMet: bool, approvalRequired: nat, approvalMet: bool,
    versionPath: VersionPath, sourceChange: bool, nexusReports: nat)

  datatype VersionPath = NoProtocolChange | CompatibleSourceChange | NewMajor | Fork

  datatype Error =
    | MemberLimit | OptInRequired | NodeIdInvalid | MemberIdExists | SubjectInvalid | SubjectAlreadyActive
    | MemberUnknown | MemberNotActive | ProposalLimit | TitleInvalid | SummaryInvalid | CompatibilityInvalid
    | ProposerNotMember | ProposerNotActive | ElectorateEmpty | SequenceExhausted | NotEncodable
    | AdvisoryInvalid | ProposalUnknown | AdvisoryLimit | NotOpenForAdvisory
    | VoterNotInElectorate | NotOpenForVote | VoteAlreadyRecorded | WithdrawalForbidden
    | SnapshotMissing | SnapshotDrift

  datatype State = State(
    members: map<string, Member>, subjects: set<string>, proposals: map<ProposalId, Proposal>,
    electorates: map<ProposalId, set<string>>, nextSequence: nat)

  const EMPTY := State(map[], {}, map[], map[], 1)

  // ---------------------------------------------------------------- checks

  predicate IsMemberId(s: string) {
    && 9 < |s| <= 137
    && s[..9] == "assembly:"
    && ('a' <= s[9] <= 'z' || '0' <= s[9] <= '9')
    && forall i | 9 <= i < |s| ::
         'a' <= s[i] <= 'z' || '0' <= s[i] <= '9' || s[i] == '.' || s[i] == '_' || s[i] == '-'
  }

  function AdmitError(g: Setting, s: State, a: Application): Option<Error> {
    if |s.members| >= MAX_ASSEMBLY_MEMBERS then Some(MemberLimit)
    else if !a.localOptIn || !IsMemberId(a.memberId) then Some(OptInRequired)
    else if a.node.Some? && !Wire.IsNodeId(a.node.value) then Some(NodeIdInvalid)
    else if a.memberId in s.members then Some(MemberIdExists)
    else if g.nfc(a.subject) == "" || |g.nfc(a.subject)| > 256 then Some(SubjectInvalid)
    else if g.nfc(a.subject) in s.subjects then Some(SubjectAlreadyActive)
    else None
  }

  function WithdrawMemberError(s: State, id: string): Option<Error> {
    if id !in s.members then Some(MemberUnknown)
    else if s.members[id].status != Active then Some(MemberNotActive)
    else None
  }

  predicate TextOk(t: string, limit: nat) {
    t != "" && |Utf8.Encode(t)| <= limit
  }

  predicate CompatibilityOk(d: Draft) {
    match d.kind
    case AdvisoryResolution => d.compatibility == NotApplicable
    case ForkProposal => d.compatibility == Breaking
    case _ => d.compatibility != NotApplicable
  }

  function Electorate(s: State): set<string> {
    set id | id in s.members && s.members[id].status == Active
  }

  function SubmitError(g: Setting, s: State, d: Draft): Option<Error> {
    if |s.proposals| >= MAX_ASSEMBLY_PROPOSALS then Some(ProposalLimit)
    else if !TextOk(d.title, MAX_PROPOSAL_TITLE_BYTES) then Some(TitleInvalid)
    else if !TextOk(d.summary, MAX_PROPOSAL_SUMMARY_BYTES) then Some(SummaryInvalid)
    else if !CompatibilityOk(d) then Some(CompatibilityInvalid)
    else if d.proposer !in s.members then Some(ProposerNotMember)
    else if s.members[d.proposer].status != Active then Some(ProposerNotActive)
    else if Electorate(s) == {} then Some(ElectorateEmpty)
    else if s.nextSequence >= MAX_SEQUENCE then Some(SequenceExhausted)
    else if s.nextSequence > Wire.SAFE_INTEGER_MAX || !g.encodable(d) then Some(NotEncodable)
    else None
  }

  /** `assess_charter_gate`: a draft stays in the current lineage only if it declares no forbidden effect. */
  predicate LineageEligible(d: Draft) {
    d.effects == {}
  }

  function InitialStatus(d: Draft): Status {
    if LineageEligible(d) || d.kind == ForkProposal then Open else ForkRequired
  }

  function IdOf(p: Proposal): ProposalId {
    ProposalId(p.sequence, p.draft, p.electorate, p.size)
  }

  function AdvisoryError(s: State, id: ProposalId, a: Advisory): Option<Error> {
    if !Wire.IsSha256Ref(a.reportRef) || (a.node.Some? && !Wire.IsNodeId(a.node.value)) then Some(AdvisoryInvalid)
    else if id !in s.proposals then Some(ProposalUnknown)
    else if |s.proposals[id].advisories| >= MAX_ASSEMBLY_ADVISORIES then Some(AdvisoryLimit)
    else if s.proposals[id].status == WithdrawnByProposer then Some(NotOpenForAdvisory)
    else None
  }

  function VoteError(s: State, id: ProposalId, voter: string): Option<Error> {
    if id !in s.electorates then Some(ProposalUnknown)
    else if voter !in s.electorates[id] then Some(VoterNotInElectorate)
    else if id !in s.proposals then Some(ProposalUnknown)
    else if s.proposals[id].status != Open then Some(NotOpenForVote)
    else if voter in s.proposals[id].votes then Some(VoteAlreadyRecorded)
    else None
  }

  function WithdrawError(s: State, id: ProposalId, proposer: string): Option<Error> {
    if id !in s.proposals then Some(ProposalUnknown)
    else if s.proposals[id].draft.proposer != proposer || s.proposals[id].status == WithdrawnByProposer
    then Some(WithdrawalForbidden)
    else None
  }

  function FinalizeError(s: State, id: ProposalId): Option<Error> {
    if id !in s.proposals then Some(ProposalUnknown)
    else if id !in s.electorates then Some(SnapshotMissing)
    else if |s.electorates[id]| != s.proposals[id].size || s.electorates[id] != s.proposals[id].electorate
    then Some(SnapshotDrift)
    else None
  }

  // ---------------------------------------------------------------- the tally

  /** Least k with 3k >= 2v. */
  function TwoThirdsCeil(v: nat): (k: nat)
    ensures 2 * v <= 3 * k < 2 * v + 3
  {
    if v == 0 then 0 else (2 * v + 2) / 3
  }

  function Voters(votes: map<string, Choice>, c: Choice): set<string> {
    set m | m in votes && votes[m] == c
  }

  function OutcomeOf(status: Status, kind: Kind, quorumMet: bool, approvalMet: bool): Outcome {
    match status
    case ForkRequired => ForkRequiredOutcome
    case WithdrawnByProposer => WithdrawnOutcome
    case Open =>
      if quorumMet && approvalMet then (if kind == ForkProposal then ForkEndorsed else Accepted) else Rejected
  }

  function VersionPathOf(kind: Kind, compatibility: Compatibility, outcome: Outcome): VersionPath {
    if outcome == ForkRequiredOutcome || outcome == ForkEndorsed then Fork
    else match kind
      case AdvisoryResolution => NoProtocolChange
      case ProtocolAmendment =>
        (match compatibility
         case BackwardCompatible => CompatibleSourceChange
         case Breaking => NewMajor
         case NotApplicable => NoProtocolChange)
      case CharterAmendment => NewMajor
      case ForkProposal => NoProtocolChange
  }

  predicate ChangesSource(outcome: Outcome, path: VersionPath) {
    outcome in {Accepted, ForkRequiredOutcome, ForkEndorsed} && path != NoProtocolChange
  }

  /** How many of the advisories come from a Nexus council. */
  function NexusReports(advisories: seq<Advisory>): nat {
    if advisories == [] then 0
    else
      var last := |advisories| - 1;
      NexusReports(advisories[..last]) + if advisories[last].fromNexus then 1 else 0
  }

  function ReceiptOf(p: Proposal): Receipt {
    var yes, no, abstain := |Voters(p.votes, Yes)|, |Voters(p.votes, No)|, |Voters(p.votes, Abstain)|;
    var quorum := TwoThirdsCeil(p.size);
    var quorumMet := yes + no + abstain >= quorum;
    var approval := TwoThirdsCeil(yes + no);
    var approvalMet := yes + no > 0 && yes >= approval;
    var outcome := OutcomeOf(p.status, p.draft.kind, quorumMet, approvalMet);
    var path := VersionPathOf(p.draft.kind, p.draft.compatibility, outcome);
    Receipt(IdOf(p), outcome, p.size, yes, no, abstain, quorum, quorumMet, approval, approvalMet,
            path, ChangesSource(outcome, path), NexusReports(p.advisories))
  }

  // ---------------------------------------------------------------- steps

  datatype Event =
    | Admit(application: Application)
    | WithdrawMember(member: string)
    | Submit(draft: Draft)
    | Advise(id: ProposalId, advisory: Advisory)
    | Vote(id: ProposalId, voter: string, choice: Choice)
    | WithdrawProposal(id: ProposalId, proposer: string)
    | Finalize(id: ProposalId)

  function Refusal(g: Setting, s: State, e: Event): Option<Error> {
    match e
    case Admit(a) => AdmitError(g, s, a)
    case WithdrawMember(id) => WithdrawMemberError(s, id)
    case Submit(d) => SubmitError(g, s, d)
    case Advise(id, a) => AdvisoryError(s, id, a)
    case Vote(id, voter, _) => VoteError(s, id, voter)
    case WithdrawProposal(id, proposer) => WithdrawError(s, id, proposer)
    case Finalize(id) => FinalizeError(s, id)
  }

  function NewProposal(s: State, d: Draft): Proposal {
    Proposal(s.nextSequence, d, Electorate(s), |Electorate(s)|, InitialStatus(d), map[], [])
  }

  /** The state after an event; a refused one changes nothing. */
  function Step(g: Setting, s: State, e: Event): State {
    if Refusal(g, s, e).Some? then s
    else match e
      case Admit(a) =>
        s.(members := s.members[a.memberId := Member(g.nfc(a.subject), a.node, Active)],
           subjects := s.subjects + {g.nfc(a.subject)})
      case WithdrawMember(id) =>
        s.(members := s.members[id := s.members[id].(status := Withdrawn)],
           subjects := s.subjects - {s.members[id].subject})
      case Submit(d) =>
        var p := NewProposal(s, d);
        s.(proposals := s.proposals[IdOf(p) := p], electorates := s.electorates[IdOf(p) := p.electorate],
           nextSequence := s.nextSequence + 1)
      case Advise(id, a) =>
        s.(proposals := s.proposals[id := s.proposals[id].(advisories := s.proposals[id].advisories + [a])])
      case Vote(id, voter, choice) =>
        s.(proposals := s.proposals[id := s.proposals[id].(votes := s.proposals[id].votes[voter := choice])])
      case WithdrawProposal(id, _) =>
        s.(proposals := s.proposals[id := s.proposals[id].(status := WithdrawnByProposer)])
      case Finalize(id) =>
        s.(proposals := s.proposals - {id}, electorates := s.electorates - {id})
  }

  /** The receipt an event issues, if any. */
  function Issued(g: Setting, s: State, e: Event): Option<Receipt> {
    if e.Finalize? && Refusal(g, s, e).None? then Some(ReceiptOf(s.proposals[e.id])) else None
  }

  class FederationAssembly {
    const setting: Setting
    var members: map<string, Member>
    var subjects: set<string>
    var proposals: map<ProposalId, Proposal>
    var electorates: map<ProposalId, set<string>>
    var nextSequence: nat

    constructor (setting: Setting)
      ensures this.setting == setting && View() == EMPTY
    {
      this.setting := setting;
      members, subjects, proposals, electorates, nextSequence := map[], {}, map[], map[], 1;
    }

    function View(): State
      reads this
    {
      State(members, subjects, proposals, electorates, nextSequence)
    }

    method AdmitMember(a: Application) returns (rejected: Option<Error>)
      modifies this
      ensures rejected == Refusal(setting, old(View()), Admit(a))
      ensures View() == Step(setting, old(View()), Admit(a))
      ensures Sound(old(View())) ==> Sound(View())
    {
      ghost var before := View();
      if |members| >= MAX_ASSEMBLY_MEMBERS {
        return Some(MemberLimit);
      }
      if !a.localOptIn || !IsMemberId(a.memberId) {
        return Some(OptInRequired);
      }
      if a.node.Some? && !Wire.IsNodeId(a.node.value) {
        return Some(NodeIdInvalid);
      }
      if a.memberId in members {
        return Some(MemberIdExists);
      }
      var subject := setting.nfc(a.subject);
      if subject == "" || |subject| > 256 {
        return Some(SubjectInvalid);
      }
      if subject in subjects {
        return Some(SubjectAlreadyActive);
      }
      subjects := subjects + {subject};
      members := members[a.memberId := Member(subject, a.node, Active)];
      rejected := None;
      StepStaysSound(setting, before, Admit(a));
    }

    method WithdrawMember(id: string) returns (rejected: Option<Error>)
      modifies this
      ensures rejected == Refusal(setting, old(View()), Event.WithdrawMember(id))
      ensures View() == Step(setting, old(View()), Event.WithdrawMember(id))
      ensures Sound(old(View())) ==> Sound(View())
    {
      ghost var before := View();
      if id !in members {
        return Some(MemberUnknown);
      }
      var member := members[id];
      if member.status != Active {
        return Some(MemberNotActive);
      }
      member := member.(status := Withdrawn);
      members := members[id := member];
      subjects := subjects - {member.subject};
      rejected := None;
      StepStaysSound(setting, before, Event.WithdrawMember(id));
    }

    /** Collects the active members one by one. */
    method ActiveMembers() returns (electorate: set<string>)
      ensures electorate == Electorate(View())
    {
      electorate := {};
      var left := members.Keys;
      while left != {}
        invariant left <= members.Keys
        invariant electorate == set id | id in members.Keys - left && members[id].status == Active
        decreases left
      {
        var id :| id in left;
        left := left - {id};
        if members[id].status == Active {
          electorate := electorate + {id};
        }
      }
    }

    method SubmitProposal(d: Draft) returns (rejected: Option<Error>)
      modifies this
      ensures rejected == Refusal(setting, old(View()), Submit(d))
      ensures View() == Step(setting, old(View()), Submit(d))
      ensures Sound(old(View())) ==> Sound(View())
    {
      ghost var before := View();
      if |proposals| >= MAX_ASSEMBLY_PROPOSALS {
        return Some(ProposalLimit);
      }
      if !TextOk(d.title, MAX_PROPOSAL_TITLE_BYTES) {
        return Some(TitleInvalid);
      }
      if !TextOk(d.summary, MAX_PROPOSAL_SUMMARY_BYTES) {
        return Some(SummaryInvalid);
      }
      if !CompatibilityOk(d) {
        return Some(CompatibilityInvalid);
      }
      if d.proposer !in members {
        return Some(ProposerNotMember);
      }
      if members[d.proposer].status != Active {
        return Some(ProposerNotActive);
      }
      var electorate := ActiveMembers();
      if electorate == {} {
        return Some(ElectorateEmpty);
      }
      if nextSequence >= MAX_SEQUENCE {
        return Some(SequenceExhausted);
      }
      var status := if LineageEligible(d) || d.kind == ForkProposal then Open else ForkRequired;
      var p := Proposal(nextSequence, d, electorate, |electorate|, status, map[], []);
      if nextSequence > Wire.SAFE_INTEGER_MAX || !setting.encodable(d) {
        return Some(NotEncodable);
      }
      nextSequence := nextSequence + 1;
      electorates := electorates[IdOf(p) := electorate];
      proposals := proposals[IdOf(p) := p];
      rejected := None;
      StepStaysSound(setting, before, Submit(d));
    }

    method AttachAdvisory(id: ProposalId, a: Advisory) returns (rejected: Option<Error>)
      modifies this
      ensures rejected == Refusal(setting, old(View()), Advise(id, a))
      ensures View() == Step(setting, old(View()), Advise(id, a))
      ensures Sound(old(View())) ==> Sound(View())
    {
      ghost var before := View();
      if !Wire.IsSha256Ref(a.reportRef) || (a.node.Some? && !Wire.IsNodeId(a.node.value)) {
        return Some(AdvisoryInvalid);
      }
      if id !in proposals {
        return Some(ProposalUnknown);
      }
      var p := proposals[id];
      if |p.advisories| >= MAX_ASSEMBLY_ADVISORIES {
        return Some(AdvisoryLimit);
      }
      if p.status != Open && p.status != ForkRequired {
        return Some(NotOpenForAdvisory);
      }
      p := p.(advisories := p.advisories + [a]);
      proposals := proposals[id := p];
      rejected := None;
      StepStaysSound(setting, before, Advise(id, a));
    }

    method CastVote(id: ProposalId, voter: string, choice: Choice) returns (rejected: Option<Error>)
      modifies this
      ensures rejected == Refusal(setting, old(View()), Vote(id, voter, choice))
      ensures View() == Step(setting, old(View()), Vote(id, voter, choice))
      ensures Sound(old(View())) ==> Sound(View())
    {
      ghost var before := View();
      if id !in electorates {
        return Some(ProposalUnknown);
      }
      if voter !in electorates[id] {
        return Some(VoterNotInElectorate);
      }
      if id !in proposals {
        return Some(ProposalUnknown);
      }
      var p := proposals[id];
      if p.status != Open {
        return Some(NotOpenForVote);
      }
      if voter in p.votes {
        return Some(VoteAlreadyRecorded);
      }
      p := p.(votes := p.votes[voter := choice]);
      proposals := proposals[id := p];
      rejected := None;
      StepStaysSound(setting, before, Vote(id, voter, choice));
    }

    method WithdrawProposal(id: ProposalId, proposer: string) returns (rejected: Option<Error>)
      modifies this
      ensures rejected == Refusal(setting, old(View()), Event.WithdrawProposal(id, proposer))
      ensures View() == Step(setting, old(View()), Event.WithdrawProposal(id, proposer))
      ensures Sound(old(View())) ==> Sound(View())
    {
      ghost var before := View();
      if id !in proposals {
        return Some(ProposalUnknown);
      }
      var p := proposals[id];
      if p.draft.proposer != proposer || (p.status != Open && p.status != ForkRequired) {
        return Some(WithdrawalForbidden);
      }
      p := p.(status := WithdrawnByProposer);
      proposals := proposals[id := p];
      rejected := None;
      StepStaysSound(setting, before, Event.WithdrawProposal(id, proposer));
    }

    method Finalize(id: ProposalId) returns (r: Result<Receipt, Error>)
      modifies this
      ensures r == match Refusal(setting, old(View()), Event.Finalize(id))
                   case Some(e) => Err(e)
                   case None => Ok(Issued(setting, old(View()), Event.Finalize(id)).value)
      ensures View() == Step(setting, old(View()), Event.Finalize(id))
      ensures Sound(old(View())) ==> Sound(View())
    {
      ghost var before := View();
      if id !in proposals {
        return Err(ProposalUnknown);
      }
      var snapshot := proposals[id];
      if id !in electorates {
        return Err(SnapshotMissing);
      }
      if |electorates[id]| != snapshot.size || electorates[id] != snapshot.electorate {
        return Err(SnapshotDrift);
      }
      var yes := CountVotes(snapshot.votes, Yes);
      var no := CountVotes(snapshot.votes, No);
      var abstain := CountVotes(snapshot.votes, Abstain);
      var electorateSize := |electorates[id]|;
      var quorum := TwoThirdsCeil(electorateSize);
      var quorumMet := yes + no + abstain >= quorum;
      var approval := TwoThirdsCeil(yes + no);
      var approvalMet := yes + no > 0 && yes >= approval;
      var outcome := OutcomeOf(snapshot.status, snapshot.draft.kind, quorumMet, approvalMet);
      var path := VersionPathOf(snapshot.draft.kind, snapshot.draft.compatibility, outcome);
      var nexusReports := CountNexus(snapshot.advisories);
      proposals := proposals - {id};
      electorates := electorates - {id};
      r := Ok(Receipt(IdOf(snapshot), outcome, electorateSize, yes, no, abstain, quorum, quorumMet,
                      approval, approvalMet, path, ChangesSource(outcome, path), nexusReports));
      StepStaysSound(setting, before, Event.Finalize(id));
    }
  }

  method CountNexus(advisories: seq<Advisory>) returns (n: nat)
    ensures n == NexusReports(advisories)
  {
    n := 0;
    for i := 0 to |advisories|
      invariant n == NexusReports(advisories[..i])
    {
      assert advisories[..i + 1][..i] == advisories[..i];
      if advisories[i].fromNexus {
        n := n + 1;
      }
    }
    assert advisories[..|advisories|] == advisories;
  }

  method CountVotes(votes: map<string, Choice>, c: Choice) returns (n: nat)
    ensures n == |Voters(votes, c)|
  {
    n := 0;
    var left := votes.Keys;
    assert Voters(votes, c) * left == Voters(votes, c);
    while left != {}
      invariant left <= votes.Keys
      invariant n + |Voters(votes, c) * left| == |Voters(votes, c)|
      decreases left
    {
      var m :| m in left;
      CountOne(votes, c, left, m);
      if votes[m] == c {
        n := n + 1;
      }
      left := left - {m};
    }
  }

  lemma CountOne(votes: map<string, Choice>, c: Choice, left: set<string>, m: string)
    requires m in left && left <= votes.Keys
    ensures |Voters(votes, c) * left| == |Voters(votes, c) * (left - {m})| + if votes[m] == c then 1 else 0
    ensures Voters(votes, c) * votes.Keys == Voters(votes, c)
  {
    var now, before := Voters(votes, c) * (left - {m}), Voters(votes, c) * left;
    if votes[m] == c {
      assert before == now + {m};
    } else {
      assert before == now;
    }
  }

  // ---------------------------------------------------------------- invariant of every run

  /** No two members of the set represent the same subject. */
  ghost predicate OneSubjectEach(members: map<string, Member>, ids: set<string>) {
    && ids <= members.Keys
    && forall a, b | a in ids && b in ids && members[a].subject == members[b].subject :: a == b
  }

  ghost predicate ProposalOk(s: State, id: ProposalId) {
    id in s.proposals && id in s.electorates &&
    var p := s.proposals[id];
    && id == IdOf(p) && p.sequence < s.nextSequence
    && s.electorates[id] == p.electorate && |p.electorate| == p.size
    && p.votes.Keys <= p.electorate
    && OneSubjectEach(s.members, p.electorate)
  }

  function ActiveSubjects(s: State): set<string> {
    set id | id in s.members && s.members[id].status == Active :: s.members[id].subject
  }

  ghost predicate Sound(s: State) {
    && OneSubjectEach(s.members, Electorate(s))
    && s.subjects == ActiveSubjects(s)
    && s.proposals.Keys == s.electorates.Keys
    && forall id | id in s.proposals :: ProposalOk(s, id)
  }

  lemma EmptySound()
    ensures Sound(EMPTY)
  {
  }

  /** Membership changes leave the members of every electorate what they represent. */
  lemma ProposalsUnaffected(s: State, u: State)
    requires Sound(s) && u.proposals == s.proposals && u.electorates == s.electorates
    requires u.nextSequence == s.nextSequence
    requires forall id | id in s.members :: id in u.members && u.members[id].subject == s.members[id].subject
    ensures forall id | id in u.proposals :: ProposalOk(u, id)
  {
  }

  lemma AdmitSound(g: Setting, s: State, a: Application)
    requires Sound(s) && Refusal(g, s, Admit(a)).None?
    ensures Sound(Step(g, s, Admit(a)))
  {
    var u := Step(g, s, Admit(a));
    assert Electorate(u) == Electorate(s) + {a.memberId};
    forall x
      ensures x in ActiveSubjects(u) <==> x in ActiveSubjects(s) || x == g.nfc(a.subject)
    {
      if x in ActiveSubjects(s) {
        var id :| id in s.members && s.members[id].status == Active && s.members[id].subject == x;
        assert id in u.members && u.members[id] == s.members[id];
      }
      assert u.members[a.memberId].subject == g.nfc(a.subject);
    }
    forall id | id in Electorate(s)
      ensures s.members[id].subject in s.subjects
    {
    }
    ProposalsUnaffected(s, u);
  }

  lemma WithdrawMemberSound(g: Setting, s: State, m: string)
    requires Sound(s) && Refusal(g, s, WithdrawMember(m)).None?
    ensures Sound(Step(g, s, WithdrawMember(m)))
  {
    var u := Step(g, s, WithdrawMember(m));
    assert m in Electorate(s) && Electorate(u) == Electorate(s) - {m};
    forall x
      ensures x in ActiveSubjects(u) <==> x in ActiveSubjects(s) && x != s.members[m].subject
    {
      if x in ActiveSubjects(u) {
        var id :| id in u.members && u.members[id].status == Active && u.members[id].subject == x;
        assert id in Electorate(u) && id in Electorate(s);
      }
      if x in ActiveSubjects(s) && x != s.members[m].subject {
        var id :| id in s.members && s.members[id].status == Active && s.members[id].subject == x;
        assert id in u.members && u.members[id] == s.members[id];
      }
    }
    ProposalsUnaffected(s, u);
  }

  lemma LaterSequenceOk(s: State, u: State, id: ProposalId)
    requires ProposalOk(s, id) && id in u.proposals && id in u.electorates
    requires u.proposals[id] == s.proposals[id] && u.electorates[id] == s.electorates[id]
    requires u.members == s.members && s.nextSequence <= u.nextSequence
    ensures ProposalOk(u, id)
  {
  }

  lemma SubmitSound(g: Setting, s: State, d: Draft)
    requires Sound(s) && Refusal(g, s, Submit(d)).None?
    ensures Sound(Step(g, s, Submit(d)))
  {
    var u := Step(g, s, Submit(d));
    var p := NewProposal(s, d);
    assert Electorate(u) == Electorate(s) && ActiveSubjects(u) == ActiveSubjects(s);
    forall id | id in u.proposals
      ensures ProposalOk(u, id)
    {
      if id != IdOf(p) {
        LaterSequenceOk(s, u, id);
      }
    }
  }

  /** Changing the status, votes or advisories of one proposal is sound if the voters stay in its electorate. */
  lemma UpdateSound(s: State, id: ProposalId, p: Proposal)
    requires Sound(s) && id in s.proposals && IdOf(p) == id && p.votes.Keys <= p.electorate
    ensures Sound(s.(proposals := s.proposals[id := p]))
  {
  }

  lemma UpdateEventSound(g: Setting, s: State, e: Event, id: ProposalId)
    requires Sound(s) && Refusal(g, s, e).None? && (e.Advise? || e.Vote? || e.WithdrawProposal?) && e.id == id
    ensures Sound(Step(g, s, e))
  {
    assert ProposalOk(s, id);
    var p := s.proposals[id];
    var changed := match e
      case Advise(_, a) => p.(advisories := p.advisories + [a])
      case Vote(_, voter, choice) => p.(votes := p.votes[voter := choice])
      case _ => p.(status := WithdrawnByProposer);
    UpdateSound(s, id, changed);
    assert Step(g, s, e) == s.(proposals := s.proposals[id := changed]);
  }

  lemma FinalizeSound(g: Setting, s: State, id: ProposalId)
    requires Sound(s) && Refusal(g, s, Finalize(id)).None?
    ensures Sound(Step(g, s, Finalize(id)))
  {
  }

  lemma StepSound(g: Setting, s: State, e: Event)
    requires Sound(s)
    ensures Sound(Step(g, s, e))
  {
    if Refusal(g, s, e).None? {
      match e {
        case Admit(a) => AdmitSound(g, s, a);
        case WithdrawMember(m) => WithdrawMemberSound(g, s, m);
        case Submit(d) => SubmitSound(g, s, d);
        case Advise(id, _) => UpdateEventSound(g, s, e, id);
        case Vote(id, _, _) => UpdateEventSound(g, s, e, id);
        case WithdrawProposal(id, _) => UpdateEventSound(g, s, e, id);
        case Finalize(id) => FinalizeSound(g, s, id);
      }
    }
  }

  lemma StepStaysSound(g: Setting, s: State, e: Event)
    ensures Sound(s) ==> Sound(Step(g, s, e))
  {
    if Sound(s) {
      StepSound(g, s, e);
    }
  }

  // ---------------------------------------------------------------- runs

  function Run(g: Setting, s: State, events: seq<Event>): State
    decreases |events|
  {
    if events == [] then s else Run(g, Step(g, s, events[0]), events[1..])
  }

  /** The receipts issued along a run. */
  function Receipts(g: Setting, s: State, events: seq<Event>): seq<Receipt>
    decreases |events|
  {
    if events == [] then []
    else
      var rest := Receipts(g, Step(g, s, events[0]), events[1..]);
      var issued := Issued(g, s, events[0]);
      if issued.Some? then [issued.value] + rest else rest
  }

  lemma {:induction false} RunSound(g: Setting, s: State, events: seq<Event>)
    requires Sound(s)
    ensures Sound(Run(g, s, events))
    decreases |events|
  {
    if events != [] {
      StepSound(g, s, events[0]);
      RunSound(g, Step(g, s, events[0]), events[1..]);
    }
  }

  /** The subjects behind a set of members. */
  function SubjectsOf(members: map<string, Member>, ids: set<string>): set<string>
    requires ids <= members.Keys
  {
    set id | id in ids :: members[id].subject
  }

  lemma {:induction false} DistinctSubjects(members: map<string, Member>, ids: set<string>)
    requires OneSubjectEach(members, ids)
    ensures |SubjectsOf(members, ids)| == |ids|
    decreases ids
  {
    if ids != {} {
      var m :| m in ids;
      DistinctSubjects(members, ids - {m});
      assert SubjectsOf(members, ids) == SubjectsOf(members, ids - {m}) + {members[m].subject};
      assert members[m].subject !in SubjectsOf(members, ids - {m});
    }
  }

  lemma VotersPartition(votes: map<string, Choice>)
    ensures |Voters(votes, Yes)| + |Voters(votes, No)| + |Voters(votes, Abstain)| == |votes.Keys|
  {
    var yes, no, abstain := Voters(votes, Yes), Voters(votes, No), Voters(votes, Abstain);
    assert votes.Keys == yes + no + abstain;
    assert yes !! no && (yes + no) !! abstain;
  }

  /** In every run a receipt counts each representation subject at most once: there are as many votes in it as
      there are different subjects behind them, whoever withdrew or was admitted meanwhile.  Finalizing a known
      proposal never fails on a missing or drifted snapshot. */
  lemma OneVotePerSubject(g: Setting, events: seq<Event>, id: ProposalId)
    requires id in Run(g, EMPTY, events).proposals
    ensures var s := Run(g, EMPTY, events);
            var voters := s.proposals[id].votes.Keys;
            && FinalizeError(s, id).None?
            && voters <= s.members.Keys
            && var r := ReceiptOf(s.proposals[id]);
               r.yes + r.no + r.abstain == |voters| == |SubjectsOf(s.members, voters)|
  {
    EmptySound();
    RunSound(g, EMPTY, events);
    var s := Run(g, EMPTY, events);
    assert ProposalOk(s, id);
    DistinctSubjects(s.members, s.proposals[id].votes.Keys);
    VotersPartition(s.proposals[id].votes);
  }

  /** Ids that can no longer name a proposal. */
  ghost predicate Spent(s: State, ids: set<ProposalId>) {
    forall id | id in ids :: id.sequence < s.nextSequence && id !in s.proposals
  }

  ghost predicate DistinctProposals(receipts: seq<Receipt>) {
    forall i, j | 0 <= i < j < |receipts| :: receipts[i].proposal != receipts[j].proposal
  }

  /** The only id a step can bring in carries the next sequence number, and only a finalized one goes. */
  lemma StepIds(g: Setting, s: State, e: Event)
    ensures s.nextSequence <= Step(g, s, e).nextSequence
    ensures forall id | id in Step(g, s, e).proposals ::
              id in s.proposals || (id.sequence == s.nextSequence && s.nextSequence < Step(g, s, e).nextSequence)
    ensures e.Finalize? && Refusal(g, s, e).None? ==> e.id !in Step(g, s, e).proposals
  {
  }

  lemma StepSpends(g: Setting, s: State, e: Event, ids: set<ProposalId>)
    requires Sound(s) && Spent(s, ids)
    ensures Issued(g, s, e).Some? ==> Issued(g, s, e).value.proposal !in ids
    ensures Spent(Step(g, s, e), ids + if Issued(g, s, e).Some? then {Issued(g, s, e).value.proposal} else {})
  {
    StepIds(g, s, e);
    if Issued(g, s, e).Some? {
      assert ProposalOk(s, e.id);
      assert Issued(g, s, e).value.proposal == e.id;
    }
  }

  lemma {:induction false} ReceiptsDistinct(g: Setting, s: State, events: seq<Event>, ids: set<ProposalId>)
    requires Sound(s) && Spent(s, ids)
    ensures DistinctProposals(Receipts(g, s, events))
    ensures forall r | r in Receipts(g, s, events) :: r.proposal !in ids && r.proposal !in Run(g, s, events).proposals
    ensures Spent(Run(g, s, events), ids)
    decreases |events|
  {
    if events != [] {
      var e := events[0];
      StepSound(g, s, e);
      StepSpends(g, s, e, ids);
      var issued := Issued(g, s, e);
      var more := ids + if issued.Some? then {issued.value.proposal} else {};
      ReceiptsDistinct(g, Step(g, s, e), events[1..], more);
    }
  }

  /** Finalization is terminal: over a whole run no proposal gets two receipts, and a proposal that got one is
      never again among the open ones. */
  lemma FinalizationIsTerminal(g: Setting, events: seq<Event>)
    ensures DistinctProposals(Receipts(g, EMPTY, events))
    ensures forall r | r in Receipts(g, EMPTY, events) :: r.proposal !in Run(g, EMPTY, events).proposals
    ensures Run(g, EMPTY, events).proposals.Keys == Run(g, EMPTY, events).electorates.Keys
  {
    EmptySound();
    ReceiptsDistinct(g, EMPTY, events, {});
    RunSound(g, EMPTY, events);
  }

  // ---------------------------------------------------------------- votes in any order

  datatype Ballot = Ballot(voter: string, choice: Choice)

  /** The ballots cast in turn; None as soon as one is refused. */
  function CastAll(g: Setting, s: State, id: ProposalId, ballots: seq<Ballot>): Option<State>
    decreases |ballots|
  {
    if ballots == [] then Some(s)
    else
      var e := Vote(id, ballots[0].voter, ballots[0].choice);
      if Refusal(g, s, e).Some? then None else CastAll(g, Step(g, s, e), id, ballots[1..])
  }

  ghost predicate OneBallotEach(ballots: seq<Ballot>) {
    forall i, j | 0 <= i < j < |ballots| :: ballots[i].voter != ballots[j].voter
  }

  /** Ballots are accepted together exactly when the proposal is open and each comes from a different member of the
      electorate who has not voted; afterwards the vote map holds the old votes and these, and nothing else changed. */
  ghost predicate Castable(s: State, id: ProposalId, ballots: seq<Ballot>) {
    && OneBallotEach(ballots)
    && (ballots != [] ==> id in s.proposals && id in s.electorates && s.proposals[id].status == Open)
    && forall b | b in ballots :: b.voter in s.electorates[id] && b.voter !in s.proposals[id].votes
  }

  lemma {:induction false} CastAllSpec(g: Setting, s: State, id: ProposalId, ballots: seq<Ballot>)
    ensures CastAll(g, s, id, ballots).Some? <==> Castable(s, id, ballots)
    ensures CastAll(g, s, id, ballots).Some? && ballots != [] ==>
              var u := CastAll(g, s, id, ballots).value;
              && id in s.proposals && id in u.proposals
              && u == s.(proposals := s.proposals[id := s.proposals[id].(votes := u.proposals[id].votes)])
              && forall m, c :: m in u.proposals[id].votes && u.proposals[id].votes[m] == c
                                <==> Ballot(m, c) in ballots
                                     || (m in s.proposals[id].votes && s.proposals[id].votes[m] == c)
    decreases |ballots|
  {
    if ballots != [] {
      var b, rest := ballots[0], ballots[1..];
      var e := Vote(id, b.voter, b.choice);
      assert b in ballots;
      assert forall x :: x in ballots <==> x == b || x in rest;
      if Refusal(g, s, e).None? {
        var next := Step(g, s, e);
        CastAllSpec(g, next, id, rest);
        CastableStep(s, next, id, ballots);
      }
    }
  }

  lemma CastableStep(s: State, next: State, id: ProposalId, ballots: seq<Ballot>)
    requires ballots != [] && id in s.proposals && id in s.electorates && s.proposals[id].status == Open
    requires ballots[0].voter in s.electorates[id] && ballots[0].voter !in s.proposals[id].votes
    requires next == s.(proposals := s.proposals[id := s.proposals[id].(
                       votes := s.proposals[id].votes[ballots[0].voter := ballots[0].choice])])
    ensures Castable(s, id, ballots) <==> Castable(next, id, ballots[1..])
  {
  }

  /** Whether each voter has one ballot does not depend on the order of the ballots. */
  lemma BallotsCounted(ballots: seq<Ballot>)
    ensures OneBallotEach(ballots) <==>
            && (forall b :: multiset(ballots)[b] <= 1)
            && (forall a, b | a in multiset(ballots) && b in multiset(ballots) && a.voter == b.voter :: a == b)
  {
    if OneBallotEach(ballots) {
      forall b
        ensures multiset(ballots)[b] <= 1
      {
        OnceEach(ballots, b);
      }
    } else {
      var i, j :| 0 <= i < j < |ballots| && ballots[i].voter == ballots[j].voter;
      assert ballots == ballots[..j] + [ballots[j]] + ballots[j + 1..];
      assert ballots[i] in ballots[..j];
    }
  }

  lemma SameBallots(first: seq<Ballot>, second: seq<Ballot>)
    requires multiset(first) == multiset(second)
    ensures forall b :: b in first <==> b in second
    ensures OneBallotEach(first) <==> OneBallotEach(second)
  {
    forall b
      ensures b in first <==> b in second
    {
      assert b in first <==> b in multiset(first);
    }
    BallotsCounted(first);
    BallotsCounted(second);
  }

  lemma {:induction false} OnceEach(ballots: seq<Ballot>, b: Ballot)
    requires OneBallotEach(ballots)
    ensures multiset(ballots)[b] <= 1
  {
    if ballots != [] {
      var rest := ballots[1..];
      assert ballots == [ballots[0]] + rest;
      OnceEach(rest, b);
      if ballots[0] == b {
        assert b !in rest by {
          forall k | 0 <= k < |rest|
            ensures rest[k] != b
          {
            assert ballots[k + 1] == rest[k];
          }
        }
      }
    }
  }

  lemma SameVotes(u: map<string, Choice>, v: map<string, Choice>, before: map<string, Choice>,
                  first: seq<Ballot>, second: seq<Ballot>)
    requires forall b :: b in first <==> b in second
    requires forall m, c :: m in u && u[m] == c <==> Ballot(m, c) in first || (m in before && before[m] == c)
    requires forall m, c :: m in v && v[m] == c <==> Ballot(m, c) in second || (m in before && before[m] == c)
    ensures u == v
  {
    forall m
      ensures m in u ==> m in v && v[m] == u[m]
      ensures m in v ==> m in u
    {
      if m in u {
        assert Ballot(m, u[m]) in first || (m in before && before[m] == u[m]);
        assert m in v && v[m] == u[m];
      }
      if m in v {
        assert Ballot(m, v[m]) in second || (m in before && before[m] == v[m]);
        assert m in u && u[m] == v[m];
      }
    }
  }

  /** The same ballots in any order are accepted alike and lead to the same state, hence to the same receipt. */
  lemma VoteOrderIrrelevant(g: Setting, s: State, id: ProposalId, first: seq<Ballot>, second: seq<Ballot>)
    requires multiset(first) == multiset(second)
    ensures CastAll(g, s, id, first) == CastAll(g, s, id, second)
  {
    SameBallots(first, second);
    CastAllSpec(g, s, id, first);
    CastAllSpec(g, s, id, second);
    assert |multiset(first)| == |first| && |multiset(second)| == |second|;
    if first != [] && Castable(s, id, first) {
      var u, v := CastAll(g, s, id, first).value, CastAll(g, s, id, second).value;
      SameVotes(u.proposals[id].votes, v.proposals[id].votes, s.proposals[id].votes, first, second);
    }
  }

  /** Nothing that happens to members or other proposals changes a proposal or its electorate. */
  lemma OtherEventsKeepProposal(g: Setting, s: State, e: Event, id: ProposalId)
    requires Sound(s) && id in s.proposals
    requires e.Admit? || e.WithdrawMember? || e.Submit? || e.id != id
    ensures id in Step(g, s, e).proposals && Step(g, s, e).proposals[id] == s.proposals[id]
    ensures id in Step(g, s, e).electorates && Step(g, s, e).electorates[id] == s.electorates[id]
  {
    assert ProposalOk(s, id);
  }

  // ---------------------------------------------------------------- votes among other events

  /** The ballots an event sequence casts on a proposal, accepted or not. */
  function BallotsFor(events: seq<Event>, id: ProposalId): seq<Ballot>
    decreases |events|
  {
    if events == [] then []
    else
      var rest := BallotsFor(events[1..], id);
      if events[0].Vote? && events[0].id == id then [Ballot(events[0].voter, events[0].choice)] + rest else rest
  }

  /** Not an event that takes the proposal out of the vote: its finalization, or its withdrawal by its proposer. */
  predicate Undisturbing(e: Event, id: ProposalId) {
    && !(e.Finalize? && e.id == id)
    && !(e.WithdrawProposal? && e.id == id && e.proposer == id.draft.proposer)
  }

  /** The vote map after the ballots: each elector's first one counts. */
  function Counted(electorate: set<string>, votes: map<string, Choice>, ballots: seq<Ballot>): map<string, Choice>
    decreases |ballots|
  {
    if ballots == [] then votes
    else
      var b := ballots[0];
      var next := if b.voter in electorate && b.voter !in votes then votes[b.voter := b.choice] else votes;
      Counted(electorate, next, ballots[1..])
  }

  /** From s to u the proposal and its electorate are kept, but for advisories and the counted ballots. */
  predicate Carried(s: State, u: State, id: ProposalId, ballots: seq<Ballot>) {
    && id in s.proposals && id in s.electorates && id in u.proposals && id in u.electorates
    && u.electorates[id] == s.electorates[id]
    && var p, q := s.proposals[id], u.proposals[id];
       q == p.(votes := Counted(s.electorates[id], p.votes, ballots), advisories := q.advisories)
  }

  lemma OtherStepCarries(g: Setting, s: State, e: Event, id: ProposalId)
    requires Sound(s) && id in s.proposals && Undisturbing(e, id) && !(e.Vote? && e.id == id)
    ensures Carried(s, Step(g, s, e), id, [])
  {
    assert ProposalOk(s, id);
    if e.Admit? || e.WithdrawMember? || e.Submit? || e.id != id {
      OtherEventsKeepProposal(g, s, e, id);
    }
  }

  lemma VoteCarries(g: Setting, s: State, id: ProposalId, b: Ballot)
    requires Sound(s) && id in s.proposals && s.proposals[id].status == Open
    ensures Carried(s, Step(g, s, Vote(id, b.voter, b.choice)), id, [b])
  {
    assert ProposalOk(s, id);
    assert [b][1..] == [];
  }

  lemma {:induction false} CountedOn(electorate: set<string>, votes: map<string, Choice>, first: seq<Ballot>,
                                     more: seq<Ballot>)
    ensures Counted(electorate, votes, first + more) == Counted(electorate, Counted(electorate, votes, first), more)
    decreases |first|
  {
    if first == [] {
      assert first + more == more;
    } else {
      var b := first[0];
      assert (first + more)[0] == b && (first + more)[1..] == first[1..] + more;
      var next := if b.voter in electorate && b.voter !in votes then votes[b.voter := b.choice] else votes;
      CountedOn(electorate, next, first[1..], more);
    }
  }

  lemma CarriedOn(s: State, t: State, u: State, id: ProposalId, first: seq<Ballot>, more: seq<Ballot>)
    requires Carried(s, t, id, first) && Carried(t, u, id, more)
    ensures Carried(s, u, id, first + more)
  {
    CountedOn(s.electorates[id], s.proposals[id].votes, first, more);
  }

  /** In any run that does not end the vote, the vote map depends only on the ballots cast, not on what happens
      between them. */
  lemma {:induction false} RunCounts(g: Setting, s: State, id: ProposalId, events: seq<Event>)
    requires Sound(s) && id in s.proposals && s.proposals[id].status == Open
    requires forall i | 0 <= i < |events| :: Undisturbing(events[i], id)
    ensures Carried(s, Run(g, s, events), id, BallotsFor(events, id))
    decreases |events|
  {
    if events == [] {
      assert ProposalOk(s, id);
    } else {
      var e := events[0];
      var next := Step(g, s, e);
      var now := if e.Vote? && e.id == id then [Ballot(e.voter, e.choice)] else [];
      StepSound(g, s, e);
      if e.Vote? && e.id == id {
        VoteCarries(g, s, id, now[0]);
      } else {
        OtherStepCarries(g, s, e, id);
      }
      RunCounts(g, next, id, events[1..]);
      CarriedOn(s, next, Run(g, next, events[1..]), id, now, BallotsFor(events[1..], id));
      assert BallotsFor(events, id) == now + BallotsFor(events[1..], id);
    }
  }

  predicate HasVote(votes: map<string, Choice>, m: string, c: Choice) {
    m in votes && votes[m] == c
  }

  lemma {:induction false} CountedSpec(electorate: set<string>, votes: map<string, Choice>, ballots: seq<Ballot>)
    requires OneBallotEach(ballots)
    ensures forall m, c :: HasVote(Counted(electorate, votes, ballots), m, c) <==>
              HasVote(votes, m, c) || (m !in votes && m in electorate && Ballot(m, c) in ballots)
    decreases |ballots|
  {
    if ballots != [] {
      var b, rest := ballots[0], ballots[1..];
      var next := if b.voter in electorate && b.voter !in votes then votes[b.voter := b.choice] else votes;
      assert forall x :: x in ballots <==> x == b || x in rest;
      assert forall x | x in rest :: x.voter != b.voter;
      CountedSpec(electorate, next, rest);
      forall m, c
        ensures HasVote(Counted(electorate, votes, ballots), m, c) <==>
                HasVote(votes, m, c) || (m !in votes && m in electorate && Ballot(m, c) in ballots)
      {
        assert HasVote(Counted(electorate, next, rest), m, c) <==>
               HasVote(next, m, c) || (m !in next && m in electorate && Ballot(m, c) in rest);
      }
    }
  }

  lemma CountedAlike(electorate: set<string>, votes: map<string, Choice>, first: seq<Ballot>, second: seq<Ballot>)
    requires multiset(first) == multiset(second) && OneBallotEach(first)
    ensures Counted(electorate, votes, first) == Counted(electorate, votes, second)
  {
    SameBallots(first, second);
    CountedSpec(electorate, votes, first);
    CountedSpec(electorate, votes, second);
    var u, v := Counted(electorate, votes, first), Counted(electorate, votes, second);
    assert forall m, c :: HasVote(u, m, c) <==> HasVote(v, m, c);
    forall m
      ensures m in u <==> m in v
      ensures m in u ==> u[m] == v[m]
    {
      if m in u {
        assert HasVote(u, m, u[m]) && HasVote(v, m, u[m]);
      }
      if m in v {
        assert HasVote(v, m, v[m]) && HasVote(u, m, v[m]);
      }
    }
  }

  lemma OpenProposalFinalizes(g: Setting, s: State, id: ProposalId)
    requires Sound(s) && id in s.proposals
    ensures Issued(g, s, Finalize(id)) == Some(ReceiptOf(s.proposals[id]))
  {
    assert ProposalOk(s, id);
  }

  /** Advisories reach the receipt as one number, and nothing else of it. */
  lemma AdvisoriesOnlyReported(p: Proposal, advisories: seq<Advisory>)
    ensures ReceiptOf(p.(advisories := advisories)) == ReceiptOf(p).(nexusReports := NexusReports(advisories))
  {
  }

  /** The receipt that finalization would issue now. */
  function FinalReceipt(g: Setting, s: State, id: ProposalId): Option<Receipt> {
    Issued(g, s, Finalize(id))
  }

  lemma SameReceipt(g: Setting, s: State, u: State, v: State, id: ProposalId, first: seq<Ballot>, second: seq<Ballot>)
    requires Sound(u) && Sound(v) && Carried(s, u, id, first) && Carried(s, v, id, second)
    requires Counted(s.electorates[id], s.proposals[id].votes, first)
             == Counted(s.electorates[id], s.proposals[id].votes, second)
    ensures FinalReceipt(g, u, id).Some? && FinalReceipt(g, v, id).Some?
    ensures FinalReceipt(g, v, id).value
            == FinalReceipt(g, u, id).value.(nexusReports := NexusReports(v.proposals[id].advisories))
    ensures FinalReceipt(g, u, id).value.nexusReports == NexusReports(u.proposals[id].advisories)
  {
    OpenProposalFinalizes(g, u, id);
    OpenProposalFinalizes(g, v, id);
    AdvisoriesOnlyReported(u.proposals[id], v.proposals[id].advisories);
    assert v.proposals[id] == u.proposals[id].(advisories := v.proposals[id].advisories);
  }

  /** Two runs in which the same electors cast the same ballots, one each, in any order and among any other events
      (admissions, withdrawals, advisories, other proposals with their votes and finalizations), both finalize, with
      receipts that are equal but for the number of Nexus advisories, and wholly equal exactly when the two runs leave
      the proposal with equally many of those. */
  lemma ReceiptDependsOnBallots(g: Setting, s: State, id: ProposalId, first: seq<Event>, second: seq<Event>)
    requires Sound(s) && id in s.proposals && s.proposals[id].status == Open
    requires forall i | 0 <= i < |first| :: Undisturbing(first[i], id)
    requires forall i | 0 <= i < |second| :: Undisturbing(second[i], id)
    requires multiset(BallotsFor(first, id)) == multiset(BallotsFor(second, id)) && OneBallotEach(BallotsFor(first, id))
    ensures var (u, v) := (Run(g, s, first), Run(g, s, second));
            var (one, two) := (FinalReceipt(g, u, id), FinalReceipt(g, v, id));
            && one.Some? && two.Some? && id in u.proposals && id in v.proposals
            && one.value.(nexusReports := 0) == two.value.(nexusReports := 0)
            && (one == two <==>
                  NexusReports(u.proposals[id].advisories) == NexusReports(v.proposals[id].advisories))
  {
    RunCounts(g, s, id, first);
    RunCounts(g, s, id, second);
    RunSound(g, s, first);
    RunSound(g, s, second);
    CountedAlike(s.electorates[id], s.proposals[id].votes, BallotsFor(first, id), BallotsFor(second, id));
    SameReceipt(g, s, Run(g, s, first), Run(g, s, second), id, BallotsFor(first, id), BallotsFor(second, id));
  }

  /** One accepted advisory from a Nexus council is enough to change the receipt. */
  lemma NexusAdvisoryChangesReceipt(g: Setting, s: State, id: ProposalId, reportRef: string)
    requires Sound(s) && id in s.proposals && s.proposals[id].status == Open
    requires |s.proposals[id].advisories| < MAX_ASSEMBLY_ADVISORIES && Wire.IsSha256Ref(reportRef)
    ensures var advised := Run(g, s, [Advise(id, Advisory(true, None, reportRef))]);
            && FinalReceipt(g, s, id).Some? && FinalReceipt(g, advised, id).Some?
            && FinalReceipt(g, advised, id) != FinalReceipt(g, s, id)
  {
    var e := Advise(id, Advisory(true, None, reportRef));
    var advised := Step(g, s, e);
    assert [e][1..] == [] && Run(g, s, [e]) == advised;
    StepSound(g, s, e);
    OpenProposalFinalizes(g, s, id);
    OpenProposalFinalizes(g, advised, id);
    OneMoreReport(s.proposals[id].advisories, Advisory(true, None, reportRef));
  }

  lemma OneMoreReport(advisories: seq<Advisory>, a: Advisory)
    ensures NexusReports(advisories + [a]) == NexusReports(advisories) + if a.fromNexus then 1 else 0
  {
    assert (advisories + [a])[..|advisories|] == advisories;
  }

  // ---------------------------------------------------------------- thresholds

  /** What a receipt says of the ballots: a proposal passes only if two thirds of its electorate took part and two
      thirds of the decisive votes were yes; conversely an open proposal with both always passes. */
  lemma PassedMeansTwoThirds(p: Proposal)
    ensures var r := ReceiptOf(p);
            var yes, no := set m | m in p.votes && p.votes[m] == Yes, set m | m in p.votes && p.votes[m] == No;
            var abstain := set m | m in p.votes && p.votes[m] == Abstain;
            && r.proposal == ProposalId(p.sequence, p.draft, p.electorate, p.size) && r.electorateSize == p.size
            && r.yes == |yes| && r.no == |no| && r.abstain == |abstain|
            && (r.quorumMet <==> 3 * (|yes| + |no| + |abstain|) >= 2 * p.size)
            && (r.approvalMet <==> 3 * |yes| >= 2 * (|yes| + |no|) && |yes| + |no| > 0)
            && 2 * p.size <= 3 * r.quorumRequired < 2 * p.size + 3
            && 2 * (|yes| + |no|) <= 3 * r.approvalRequired < 2 * (|yes| + |no|) + 3
            && (r.outcome in {Accepted, ForkEndorsed} <==> p.status == Open && r.quorumMet && r.approvalMet)
            && (r.outcome == Rejected <==> p.status == Open && !(r.quorumMet && r.approvalMet))
            && (r.outcome == WithdrawnOutcome <==> p.status == WithdrawnByProposer)
  {
    var yes, no := set m | m in p.votes && p.votes[m] == Yes, set m | m in p.votes && p.votes[m] == No;
    var abstain := set m | m in p.votes && p.votes[m] == Abstain;
    assert yes == Voters(p.votes, Yes) && no == Voters(p.votes, No) && abstain == Voters(p.votes, Abstain);
  }

  /** Any two quorate sets of voters over one electorate share at least a third of it. */
  lemma QuoraIntersect(electorate: set<string>, a: set<string>, b: set<string>)
    requires a <= electorate && b <= electorate
    requires |a| >= TwoThirdsCeil(|electorate|) && |b| >= TwoThirdsCeil(|electorate|)
    ensures 3 * |a * b| >= |electorate|
  {
    assert |a + b| == |a| + |b| - |a * b|;
    SubsetCardinality(a + b, electorate);
  }

  // ---------------------------------------------------------------- the charter gate

  /** What the charter's gate makes of a proposal: with a forbidden effect only a fork can be open to votes. */
  ghost predicate Gated(p: Proposal) {
    && (p.draft.effects != {} && p.draft.kind != ForkProposal ==> p.status != Open && p.votes == map[])
    && (p.draft.effects == {} || p.draft.kind == ForkProposal ==> p.status != ForkRequired)
  }

  ghost predicate AllGated(s: State) {
    forall id | id in s.proposals :: Gated(s.proposals[id])
  }

  /** A submitted draft is open exactly if it has no forbidden effect or proposes a fork; its electorate is all who are
      active members at that moment. */
  lemma SubmittedGate(g: Setting, s: State, d: Draft)
    requires Refusal(g, s, Submit(d)).None?
    ensures var u := Step(g, s, Submit(d));
            exists id :: id in u.proposals && id.draft == d && id.sequence == s.nextSequence
                         && u.proposals[id].draft == d && u.proposals[id].votes == map[]
                         && id.electorate == (set m | m in s.members && s.members[m].status == Active)
                         && id.size == |id.electorate| && u.proposals == s.proposals[id := u.proposals[id]]
                         && (u.proposals[id].status == Open <==> d.effects == {} || d.kind == ForkProposal)
                         && (u.proposals[id].status == ForkRequired <==> d.effects != {} && d.kind != ForkProposal)
  {
    var p := NewProposal(s, d);
    assert IdOf(p) in Step(g, s, Submit(d)).proposals;
  }

  lemma StepGated(g: Setting, s: State, e: Event)
    requires AllGated(s)
    ensures AllGated(Step(g, s, e))
  {
  }

  lemma {:induction false} RunGated(g: Setting, s: State, events: seq<Event>)
    requires AllGated(s)
    ensures AllGated(Run(g, s, events))
    ensures forall r | r in Receipts(g, s, events) :: exists p :: Gated(p) && r == ReceiptOf(p)
    decreases |events|
  {
    if events != [] {
      StepGated(g, s, events[0]);
      RunGated(g, Step(g, s, events[0]), events[1..]);
    }
  }

  /** In every run: a receipt that accepts is for a draft without forbidden effects, one that endorses a fork is for a
      fork proposal, one that requires a fork is for a draft with a forbidden effect that proposes none; such a draft
      has no votes, and its receipt requires the fork unless it was withdrawn. */
  lemma CharterHolds(g: Setting, events: seq<Event>)
    ensures forall r | r in Receipts(g, EMPTY, events) ::
              && (r.outcome == Accepted ==> r.proposal.draft.effects == {} && r.proposal.draft.kind != ForkProposal)
              && (r.outcome == ForkEndorsed ==> r.proposal.draft.kind == ForkProposal)
              && (r.outcome == ForkRequiredOutcome ==>
                    r.proposal.draft.effects != {} && r.proposal.draft.kind != ForkProposal)
              && (r.proposal.draft.effects != {} && r.proposal.draft.kind != ForkProposal ==>
                    r.outcome in {ForkRequiredOutcome, WithdrawnOutcome} && r.yes == r.no == r.abstain == 0)
    ensures forall id | id in Run(g, EMPTY, events).proposals && id.draft.effects != {}
                        && id.draft.kind != ForkProposal ::
              var p := Run(g, EMPTY, events).proposals[id];
              && p.votes == map[]
              && FinalReceipt(g, Run(g, EMPTY, events), id).Some?
              && FinalReceipt(g, Run(g, EMPTY, events), id).value.outcome ==
                 if p.status == WithdrawnByProposer then WithdrawnOutcome else ForkRequiredOutcome
  {
    RunGated(g, EMPTY, events);
    EmptySound();
    RunSound(g, EMPTY, events);
    forall p | Gated(p)
      ensures GateOnReceipt(p)
    {
      GatedReceipt(p);
    }
    var s := Run(g, EMPTY, events);
    forall id | id in s.proposals
      ensures FinalReceipt(g, s, id) == Some(ReceiptOf(s.proposals[id])) && s.proposals[id].draft == id.draft
    {
      OpenProposalFinalizes(g, s, id);
      assert ProposalOk(s, id);
    }
  }

  ghost predicate GateOnReceipt(p: Proposal) {
    var r := ReceiptOf(p);
    && r.proposal.draft == p.draft
    && (r.outcome == Accepted ==> p.draft.effects == {} && p.draft.kind != ForkProposal)
    && (r.outcome == ForkEndorsed ==> p.draft.kind == ForkProposal)
    && (r.outcome == ForkRequiredOutcome ==> p.draft.effects != {} && p.draft.kind != ForkProposal)
    && (p.draft.effects != {} && p.draft.kind != ForkProposal ==>
          && r.outcome == (if p.status == WithdrawnByProposer then WithdrawnOutcome else ForkRequiredOutcome)
          && r.yes == r.no == r.abstain == 0)
  }

  lemma GatedReceipt(p: Proposal)
    requires Gated(p)
    ensures GateOnReceipt(p)
  {
    if p.votes == map[] {
      assert Voters(p.votes, Yes) == {} && Voters(p.votes, No) == {} && Voters(p.votes, Abstain) == {};
    }
  }

  // ---------------------------------------------------------------- who may do what, and that nobody else did

  /** What entitles an event to take place. */
  predicate Entitled(g: Setting, s: State, e: Event) {
    match e
    case Admit(a) =>
      && |s.members| < 1_024 && a.localOptIn && IsMemberId(a.memberId) && a.memberId !in s.members
      && (a.node.Some? ==> Wire.IsNodeId(a.node.value))
      && 0 < |g.nfc(a.subject)| <= 256 && g.nfc(a.subject) !in s.subjects
    case WithdrawMember(id) => id in s.members && s.members[id].status == Active
    case Submit(d) =>
      && |s.proposals| < 1_024
      && 0 < |Utf8.Encode(d.title)| <= 256 && 0 < |Utf8.Encode(d.summary)| <= 8_192
      && (d.kind == AdvisoryResolution <==> d.compatibility == NotApplicable)
      && (d.kind == ForkProposal ==> d.compatibility == Breaking)
      && d.proposer in s.members && s.members[d.proposer].status == Active
      && s.nextSequence <= 9_007_199_254_740_991 && g.encodable(d)
    case Advise(id, a) =>
      && id in s.proposals && s.proposals[id].status != WithdrawnByProposer && |s.proposals[id].advisories| < 64
      && Wire.IsSha256Ref(a.reportRef) && (a.node.Some? ==> Wire.IsNodeId(a.node.value))
    case Vote(id, voter, _) =>
      && id in s.proposals && id in s.electorates && s.proposals[id].status == Open
      && voter in s.electorates[id] && voter !in s.proposals[id].votes
    case WithdrawProposal(id, proposer) =>
      id in s.proposals && proposer == s.proposals[id].draft.proposer && s.proposals[id].status != WithdrawnByProposer
    case Finalize(id) =>
      && id in s.proposals && id in s.electorates
      && s.electorates[id] == s.proposals[id].electorate && |s.electorates[id]| == s.proposals[id].size
  }

  lemma {:induction false} EmptyText(t: string)
    ensures t == "" <==> |Utf8.Encode(t)| == 0
  {
  }

  /** An event takes place exactly if it is entitled to. */
  lemma TakesPlaceIff(g: Setting, s: State, e: Event)
    ensures Refusal(g, s, e).None? <==> Entitled(g, s, e)
    ensures !Entitled(g, s, e) ==> Step(g, s, e) == s
  {
    match e {
      case Submit(d) =>
        EmptyText(d.title);
        EmptyText(d.summary);
        assert d.proposer in s.members && s.members[d.proposer].status == Active ==> d.proposer in Electorate(s);
      case _ =>
    }
  }

  /** The member was admitted on its own application, and has left only if it asked to. */
  ghost predicate MemberAsked(g: Setting, past: seq<Event>, id: string, m: Member) {
    && (exists a :: Admit(a) in past && a.localOptIn && a.memberId == id && m.subject == g.nfc(a.subject)
                    && m.node == a.node)
    && (m.status == Withdrawn ==> Event.WithdrawMember(id) in past)
  }

  /** The proposal was submitted, its votes were cast and its advisories attached as recorded, and only its proposer
      withdrew it. */
  ghost predicate ProposalAsked(past: seq<Event>, id: ProposalId, p: Proposal) {
    && Submit(p.draft) in past && p.draft == id.draft
    && (forall v | v in p.votes :: Vote(id, v, p.votes[v]) in past)
    && (forall a | a in p.advisories :: Advise(id, a) in past)
    && (p.status == WithdrawnByProposer ==> Event.WithdrawProposal(id, p.draft.proposer) in past)
  }

  ghost predicate MembersAsked(g: Setting, past: seq<Event>, s: State) {
    forall id | id in s.members :: MemberAsked(g, past, id, s.members[id])
  }

  ghost predicate ProposalsAsked(past: seq<Event>, s: State) {
    forall id | id in s.proposals :: ProposalAsked(past, id, s.proposals[id])
  }

  lemma MemberAskedStill(g: Setting, past: seq<Event>, e: Event, id: string, m: Member)
    requires MemberAsked(g, past, id, m)
    ensures MemberAsked(g, past + [e], id, m)
  {
    var a :| Admit(a) in past && a.localOptIn && a.memberId == id && m.subject == g.nfc(a.subject) && m.node == a.node;
    assert Admit(a) in past + [e];
  }

  lemma ProposalAskedStill(past: seq<Event>, e: Event, id: ProposalId, p: Proposal)
    requires ProposalAsked(past, id, p)
    ensures ProposalAsked(past + [e], id, p)
  {
    assert forall x | x in past :: x in past + [e];
  }

  lemma StepMembersAsked(g: Setting, past: seq<Event>, s: State, e: Event)
    requires MembersAsked(g, past, s)
    ensures MembersAsked(g, past + [e], Step(g, s, e))
  {
    var u := Step(g, s, e);
    assert e in past + [e];
    forall id | id in u.members
      ensures MemberAsked(g, past + [e], id, u.members[id])
    {
      if id in s.members {
        MemberAskedStill(g, past, e, id, s.members[id]);
      }
    }
  }

  lemma StepProposalsAsked(g: Setting, past: seq<Event>, s: State, e: Event)
    requires ProposalsAsked(past, s)
    ensures ProposalsAsked(past + [e], Step(g, s, e))
  {
    var u := Step(g, s, e);
    assert e in past + [e];
    forall id | id in u.proposals
      ensures ProposalAsked(past + [e], id, u.proposals[id])
    {
      if id in s.proposals {
        ProposalAskedStill(past, e, id, s.proposals[id]);
      }
    }
  }

  lemma {:induction false} RunAsked(g: Setting, past: seq<Event>, s: State, events: seq<Event>)
    requires MembersAsked(g, past, s) && ProposalsAsked(past, s)
    ensures MembersAsked(g, past + events, Run(g, s, events)) && ProposalsAsked(past + events, Run(g, s, events))
    decreases |events|
  {
    if events == [] {
      assert past + events == past;
    } else {
      StepMembersAsked(g, past, s, events[0]);
      StepProposalsAsked(g, past, s, events[0]);
      RunAsked(g, past + [events[0]], Step(g, s, events[0]), events[1..]);
      assert past + [events[0]] + events[1..] == past + events;
    }
  }

  /** After any run every member, vote, advisory and withdrawal goes back to an event of the run that asked for just
      that. */
  lemma NothingUnasked(g: Setting, events: seq<Event>)
    ensures MembersAsked(g, events, Run(g, EMPTY, events)) && ProposalsAsked(events, Run(g, EMPTY, events))
  {
    RunAsked(g, [], EMPTY, events);
    assert [] + events == events;
  }

  // ---------------------------------------------------------------- what a receipt calls for

  /** A receipt calls for a change of the source exactly if the proposal passed or needs a fork, and is not a resolution
      that leaves the protocol alone; and it says which change. */
  lemma ReceiptCallsFor(p: Proposal)
    requires CompatibilityOk(p.draft)
    ensures var r := ReceiptOf(p);
            && (r.versionPath == Fork <==> r.outcome in {ForkRequiredOutcome, ForkEndorsed})
            && (r.sourceChange <==>
                  || r.outcome in {ForkRequiredOutcome, ForkEndorsed}
                  || (r.outcome == Accepted && p.draft.kind != AdvisoryResolution))
            && (r.outcome !in {ForkRequiredOutcome, ForkEndorsed} ==>
                  r.versionPath == match (p.draft.kind, p.draft.compatibility)
                                   case (CharterAmendment, _) => NewMajor
                                   case (ProtocolAmendment, Breaking) => NewMajor
                                   case (ProtocolAmendment, _) => CompatibleSourceChange
                                   case (_, _) => NoProtocolChange)
  {
  }

  // ---------------------------------------------------------------- sequence numbers

  /** How many submissions of a run are accepted. */
  function Submissions(g: Setting, s: State, events: seq<Event>): nat
    decreases |events|
  {
    if events == [] then 0
    else
      var first := events[0].Submit? && Refusal(g, s, events[0]).None?;
      (if first then 1 else 0) + Submissions(g, Step(g, s, events[0]), events[1..])
  }

  lemma StepNumbers(g: Setting, s: State, e: Event)
    ensures var u := Step(g, s, e);
            if e.Submit? && Refusal(g, s, e).None? then
              && u.nextSequence == s.nextSequence + 1
              && forall id | id in u.proposals && id !in s.proposals :: id.sequence == s.nextSequence
            else u.nextSequence == s.nextSequence && forall id | id in u.proposals :: id in s.proposals
  {
  }

  /** Proposals are numbered from one without gaps, whatever else happens. */
  lemma {:induction false} SequencesCount(g: Setting, s: State, events: seq<Event>)
    ensures Run(g, s, events).nextSequence == s.nextSequence + Submissions(g, s, events)
    ensures forall id | id in Run(g, s, events).proposals && id !in s.proposals ::
              s.nextSequence <= id.sequence < Run(g, s, events).nextSequence
    decreases |events|
  {
    if events != [] {
      StepNumbers(g, s, events[0]);
      SequencesCount(g, Step(g, s, events[0]), events[1..]);
    }
  }
}
