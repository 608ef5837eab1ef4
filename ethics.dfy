/**
 * The ethics guard (backend/core/ethics.py): a blacklist of substrings
 * checked against the lower-cased content, and a sanitiser that replaces
 * offending content by a fixed refusal.
 */
module Ethics {
  import opened Text

  const ForbiddenTerms: seq<string> := ["hack", "exploit", "unethical"]

  /** The canned refusal; the word "Unethical" starts at index 16. */
  const Refusal: string := "Startup halted: " + "Unethical" + " or restricted content detected. Please realign your intention."

  /** Whether some term of `terms` occurs in `text`, scanning the terms in order. */
  function AnyOccurs(text: string, terms: seq<string>): (found: bool)
    ensures found <==> exists k :: 0 <= k < |terms| && Contains(text, terms[k])
  {
    if terms == [] then false
    else if Contains(text, terms[0]) then true
    else
      var found := AnyOccurs(text, terms[1..]);
      assert forall k :: 1 <= k < |terms| ==> terms[k] == terms[1..][k - 1];
      found
  }

  /** EthicsGuard.validate: false exactly when a forbidden term occurs in the lower-cased content. */
  function Validate(content: string): (ok: bool)
    ensures !ok <==> exists k :: 0 <= k < |ForbiddenTerms| && Contains(Lower(content), ForbiddenTerms[k])
  {
    !AnyOccurs(Lower(content), ForbiddenTerms)
  }

  /** EthicsGuard.sanitize. */
  function Sanitize(content: string): string
  {
    if !Validate(content) then Refusal else content
  }

  /** The verdict does not depend on letter case. */
  lemma ValidateIgnoresCase(content: string)
    ensures Validate(content) == Validate(Lower(content))
  {
    LowerIdempotent(content);
  }

  /** Content that contains invalid content is invalid. */
  lemma InvalidPersists(content: string, larger: string)
    requires Contains(larger, content)
    requires !Validate(content)
    ensures !Validate(larger)
  {
    var k :| 0 <= k < |ForbiddenTerms| && Contains(Lower(content), ForbiddenTerms[k]);
    ContainsLower(larger, content);
    ContainsTransitive(Lower(larger), Lower(content), ForbiddenTerms[k]);
  }

  /** The refusal names itself "Unethical", so it fails validation. */
  lemma RefusalIsInvalid()
    ensures !Validate(Refusal)
  {
    var low := Lower(Refusal);
    assert Refusal[16..25] == "Unethical";
    LowerSlice(Refusal, 16, 25);
    assert LowerChar('U') == 'u';
    assert Lower("Unethical") == "unethical";
    assert OccursAt(low, ForbiddenTerms[2], 16);
  }

  /**
   * Valid content passes through, anything else becomes the refusal;
   * sanitising keeps the verdict, and sanitising twice is sanitising once.
   */
  lemma SanitizeIdempotent(content: string)
    ensures Validate(content) ==> Sanitize(content) == content
    ensures !Validate(content) ==> Sanitize(content) == Refusal
    ensures Validate(Sanitize(content)) == Validate(content)
    ensures Sanitize(Sanitize(content)) == Sanitize(content)
  {
    RefusalIsInvalid();
  }
}
