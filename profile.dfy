/** `validate_candidate_info`: despite its name it rejects nothing. It trims every text
    field, lower-cases the e-mail address, defaults missing fields, and reads the tech
    stack as a comma-separated list of non-blank entries. */
module Profile {
  import opened Base
  import opened PyStr

  /** The form as submitted: any field may be missing. */
  datatype RawInfo = RawInfo(
    fullName: Option<string>,
    email: Option<string>,
    phone: Option<string>,
    experience: Option<int>,
    position: Option<string>,
    location: Option<string>,
    techStack: Option<string>)

  /** The profile the interview works with. */
  datatype CandidateInfo = CandidateInfo(
    fullName: string,
    email: string,
    phone: string,
    experience: int,
    position: string,
    location: string,
    techStack: seq<string>)

  /** The tech stack field read as a list: split at commas, entries stripped, blank
      entries dropped, order kept. */
  function ParseTechStack(s: string): seq<string> {
    StrippedNonBlank(Split(s, ','))
  }

  /** `validate_candidate_info`: a missing text field reads as empty and a missing
      experience as 0. */
  function ValidateCandidateInfo(info: RawInfo): CandidateInfo {
    CandidateInfo(
      Strip(info.fullName.GetOr("")),
      Lower(Strip(info.email.GetOr(""))),
      Strip(info.phone.GetOr("")),
      info.experience.GetOr(0),
      Strip(info.position.GetOr("")),
      Strip(info.location.GetOr("")),
      ParseTechStack(info.techStack.GetOr("")))
  }

  predicate Trimmed(s: string) {
    Strip(s) == s
  }

  predicate LowerCase(s: string) {
    forall i | 0 <= i < |s| :: !IsUpper(s[i])
  }

  /** An entry of a normalised tech stack. */
  predicate TechEntry(t: string) {
    t != "" && Trimmed(t) && ',' !in t
  }

  /** What a validated profile looks like. */
  predicate Normalized(v: CandidateInfo) {
    && Trimmed(v.fullName)
    && Trimmed(v.email) && LowerCase(v.email)
    && Trimmed(v.phone)
    && Trimmed(v.position)
    && Trimmed(v.location)
    && forall t | t in v.techStack :: TechEntry(t)
  }

  /** Every entry of a parsed tech stack is non-blank, trimmed and free of commas. */
  lemma TechStackEntries(s: string)
    ensures forall t | t in ParseTechStack(s) :: TechEntry(t)
  {
    var parts := Split(s, ',');
    StrippedNonBlankItems(parts);
    SplitParts(s, ',');
    forall t | t in ParseTechStack(s) ensures ',' !in t {
      StrippedNonBlankMembers(parts, t);
      var p :| p in parts && Strip(p) == t;
      var lo, hi := StripBounds(p);
      assert forall k | 0 <= k < |t| :: t[k] == p[lo + k];
    }
  }

  /** A tech-stack entry is exactly the strip of some non-blank piece between commas. */
  lemma TechStackMembers(s: string, t: string)
    ensures t in ParseTechStack(s) <==> t != "" && exists p :: p in Split(s, ',') && Strip(p) == t
  {
    StrippedNonBlankMembers(Split(s, ','), t);
  }

  /** Entries keep their order: a comma cuts the list in two. */
  lemma TechStackInOrder(a: string, b: string)
    ensures ParseTechStack(a + "," + b) == ParseTechStack(a) + ParseTechStack(b)
  {
    SplitConcat(a, ',', b);
    StrippedNonBlankConcat(Split(a, ','), Split(b, ','));
  }

  /** The empty field reads as no technologies. */
  lemma EmptyTechStack()
    ensures ParseTechStack("") == []
  {
    assert Split("", ',') == [""];
    assert Strip("") == "";
  }

  /** Spaces around the commas and a trailing comma are ignored: for any three entries,
      `"a, b ,c,"` reads as `a`, `b`, `c`. */
  lemma TechStackLoosely(a: string, b: string, c: string)
    requires TechEntry(a) && TechEntry(b) && TechEntry(c)
    ensures ParseTechStack(a + ", " + b + " ," + c + ",") == [a, b, c]
  {
    var r2 := c + "," + "";
    var r1 := " " + b + " " + "," + r2;
    LooseLayout(a, b, c);
    TechStackInOrder(a, r1);
    TechStackInOrder(" " + b + " ", r2);
    TechStackInOrder(c, "");
    EmptyTechStack();
    TechEntryAlone(a);
    TechEntryAlone(c);
    PaddedEntry(b);
  }

  /** The layout `a, b ,c,` cut at its commas. It is a separate lemma so that the proof of
      `TechStackLoosely` gets this one regrouping instead of searching for it, which keeps
      that proof cheap. */
  lemma LooseLayout(a: string, b: string, c: string)
    ensures a + ", " + b + " ," + c + "," == a + "," + (" " + b + " " + "," + (c + "," + ""))
  {
  }

  /** The field `"a, b ,c,"` reads as `a`, `b`, `c`. */
  lemma TechStackExample()
    ensures ParseTechStack("a, b ,c,") == ["a", "b", "c"]
  {
    assert TechEntry("a") && TechEntry("b") && TechEntry("c");
    TechStackLoosely("a", "b", "c");
    assert "a" + ", " + "b" + " ," + "c" + "," == "a, b ,c,";
  }

  /** An entry with a space on either side reads as the entry. */
  lemma PaddedEntry(t: string)
    requires TechEntry(t)
    ensures ParseTechStack(" " + t + " ") == [t]
  {
    assert " " + t + " " == " " + (t + " ");
    LeadingSpaceIgnored(t + " ");
    StripShape(t);
    assert (t + " ")[..|t|] == t && (t + " ")[|t|..] == " ";
    StripUnique(t + " ", 0, |t|);
    SplitNoSeparator(t + " ", ',');
  }

  /** A single trimmed, non-blank, comma-free entry reads as itself. */
  lemma TechEntryAlone(t: string)
    requires TechEntry(t)
    ensures ParseTechStack(t) == [t]
  {
    SplitNoSeparator(t, ',');
    assert [t][1..] == [];
  }

  /** A space in front of the field changes nothing. */
  lemma LeadingSpaceIgnored(s: string)
    ensures ParseTechStack(" " + s) == ParseTechStack(s)
  {
    var x := " " + s;
    assert x[0] == ' ' && x[1..] == s;
    var rest := Split(s, ',');
    assert Split(x, ',') == [[' '] + rest[0]] + rest[1..];
    StripLeadingSpace(' ', rest[0]);
    assert Kept([' '] + rest[0]) == Kept(rest[0]);
    assert rest == [rest[0]] + rest[1..];
  }

  /** Writing a normalised tech stack back as the form shows it, entries joined by
      `", "`, and reading it again gives the same list. */
  lemma {:induction false} TechStackRoundTrip(ts: seq<string>)
    requires forall t | t in ts :: TechEntry(t)
    ensures ParseTechStack(Join(ts, ", ")) == ts
  {
    if ts == [] {
      EmptyTechStack();
    } else if |ts| == 1 {
      TechEntryAlone(ts[0]);
    } else {
      var rest := Join(ts[1..], ", ");
      assert Join(ts, ", ") == ts[0] + "," + (" " + rest);
      TechStackInOrder(ts[0], " " + rest);
      TechEntryAlone(ts[0]);
      LeadingSpaceIgnored(rest);
      assert forall t | t in ts[1..] :: t in ts;
      TechStackRoundTrip(ts[1..]);
      assert ts == [ts[0]] + ts[1..];
    }
  }

  /** Every profile validation returns is normalised. */
  lemma ValidatedIsNormalized(info: RawInfo)
    ensures Normalized(ValidateCandidateInfo(info))
  {
    var e := Strip(info.email.GetOr(""));
    StripIdempotent(info.fullName.GetOr(""));
    StripIdempotent(info.email.GetOr(""));
    StripIdempotent(info.phone.GetOr(""));
    StripIdempotent(info.position.GetOr(""));
    StripIdempotent(info.location.GetOr(""));
    StripLowerCommute(e);
    LowerIdempotent(e);
    TechStackEntries(info.techStack.GetOr(""));
  }

  /** The form a profile is shown as: every field present, the tech stack joined by `", "`. */
  function AsForm(v: CandidateInfo): RawInfo {
    RawInfo(Some(v.fullName), Some(v.email), Some(v.phone), Some(v.experience),
            Some(v.position), Some(v.location), Some(Join(v.techStack, ", ")))
  }

  /** Validating a normalised profile again, as a form, changes nothing. */
  lemma NormalizedIsFixed(v: CandidateInfo)
    requires Normalized(v)
    ensures ValidateCandidateInfo(AsForm(v)) == v
  {
    assert Lower(v.email) == v.email;
    TechStackRoundTrip(v.techStack);
  }

  /** Validation is idempotent: resubmitting a validated profile gives it back. */
  lemma ValidationIdempotent(info: RawInfo)
    ensures ValidateCandidateInfo(AsForm(ValidateCandidateInfo(info))) == ValidateCandidateInfo(info)
  {
    ValidatedIsNormalized(info);
    NormalizedIsFixed(ValidateCandidateInfo(info));
  }

  /** A form with no fields gives empty text, zero years and no technologies. */
  lemma EmptyFormDefaults()
    ensures ValidateCandidateInfo(RawInfo(None, None, None, None, None, None, None))
         == CandidateInfo("", "", "", 0, "", "", [])
  {
    EmptyTechStack();
    assert Strip("") == "";
  }
}
