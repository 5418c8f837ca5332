/**
 * The upload validator: a list of rules, each a file-name pattern and a size
 * bound. The first rule whose pattern matches the file's original name decides.
 *
 * Every pattern the application configures has the form `/(ext1|ext2|...)$/i`, an
 * alternation of suffixes matched without regard to case, and is modelled as
 * that list of suffixes.
 */
module SmartFileValidator {
  import opened Wrappers
  import opened Strings

  datatype TypeRule = TypeRule(suffixes: seq<string>, maxSize: nat)

  datatype UploadedFile = UploadedFile(originalname: string, mimetype: string, size: nat)

  predicate EndsWith(s: string, suffix: string) {
    |suffix| <= |s| && s[|s| - |suffix|..] == suffix
  }

  /** `rule.fileType.test(name)`: the name ends with one of the suffixes, ignoring case. */
  predicate Matches(rule: TypeRule, name: string) {
    exists k :: 0 <= k < |rule.suffixes| && EndsWith(ToLower(name), ToLower(rule.suffixes[k]))
  }

  /** `rules.find(...)`: the position of the first rule that matches the name. */
  function FindRule(rules: seq<TypeRule>, name: string): (r: Option<nat>)
    ensures r.Some? ==> r.value < |rules| && Matches(rules[r.value], name)
                        && forall j :: 0 <= j < r.value ==> !Matches(rules[j], name)
    ensures r.None? <==> forall j :: 0 <= j < |rules| ==> !Matches(rules[j], name)
  {
    if |rules| == 0 then None
    else if Matches(rules[0], name) then Some(0)
    else match FindRule(rules[1..], name)
         case None => None
         case Some(i) => Some(i + 1)
  }

  /** `isValid(file)`. */
  function IsValid(rules: seq<TypeRule>, file: Option<UploadedFile>): (ok: bool)
    ensures ok <==> (file.Some? &&
      exists i :: 0 <= i < |rules| && Matches(rules[i], file.value.originalname)
        && (forall j :: 0 <= j < i ==> !Matches(rules[j], file.value.originalname))
        && file.value.size <= rules[i].maxSize)
  {
    if file.None? then false
    else match FindRule(rules, file.value.originalname)
         case None => false
         case Some(i) => file.value.size <= rules[i].maxSize
  }

  /** The three messages the validator reports; the size is the bound of the matching rule, in bytes. */
  datatype ErrorMessage = FileRequired | TypeNotAllowed(mimetype: string) | TooLarge(maxSize: nat)

  /** `buildErrorMessage(file)`. */
  function BuildErrorMessage(rules: seq<TypeRule>, file: Option<UploadedFile>): (m: ErrorMessage)
    ensures m == FileRequired <==> file.None?
    ensures m.TypeNotAllowed? <==>
      file.Some? && forall j :: 0 <= j < |rules| ==> !Matches(rules[j], file.value.originalname)
    ensures m.TypeNotAllowed? ==> m.mimetype == file.value.mimetype
    ensures m.TooLarge? ==>
      && file.Some?
      && exists i :: 0 <= i < |rules| && Matches(rules[i], file.value.originalname)
           && (forall j :: 0 <= j < i ==> !Matches(rules[j], file.value.originalname))
           && m.maxSize == rules[i].maxSize
  {
    if file.None? then FileRequired
    else match FindRule(rules, file.value.originalname)
         case None => TypeNotAllowed(file.value.mimetype)
         case Some(i) => TooLarge(rules[i].maxSize)
  }

  /**
   * The message of a rejected file names the reason it was rejected: no file, no
   * matching rule, or a size above the bound of the first matching rule.
   */
  lemma ErrorExplainsRejection(rules: seq<TypeRule>, file: Option<UploadedFile>)
    requires !IsValid(rules, file)
    ensures file.None? <==> BuildErrorMessage(rules, file) == FileRequired
    ensures (file.Some? && forall j :: 0 <= j < |rules| ==> !Matches(rules[j], file.value.originalname))
      ==> BuildErrorMessage(rules, file) == TypeNotAllowed(file.value.mimetype)
    ensures BuildErrorMessage(rules, file).TooLarge? ==> file.Some? && file.value.size > BuildErrorMessage(rules, file).maxSize
  {
  }

  /** The message a valid file would get is the size message, with a bound the file respects. */
  lemma ValidFileWithinBound(rules: seq<TypeRule>, file: Option<UploadedFile>)
    requires IsValid(rules, file)
    ensures BuildErrorMessage(rules, file).TooLarge? && file.value.size <= BuildErrorMessage(rules, file).maxSize
  {
  }

  const MB := 1024 * 1024

  /** The image rule of the application's file configuration: five megabytes. */
  const ImageRule := TypeRule(["jpg", "jpeg", "png", "webp", "gif", "bmp"], 5 * MB)

  /** The six image suffixes are written in lower case, so lower-casing leaves them alone. */
  lemma ImageSuffixesLower()
    ensures forall k :: 0 <= k < |ImageRule.suffixes| ==> ToLower(ImageRule.suffixes[k]) == ImageRule.suffixes[k]
  {
    forall k | 0 <= k < |ImageRule.suffixes|
      ensures ToLower(ImageRule.suffixes[k]) == ImageRule.suffixes[k]
    {
      var t := ImageRule.suffixes[k];
      assert forall i :: 0 <= i < |t| ==> 'a' <= t[i] <= 'z';
    }
  }

  /**
   * The image rule on its own admits a file exactly when its name, lower-cased,
   * ends with one of jpg, jpeg, png, webp, gif or bmp, and it is at most five
   * megabytes.
   */
  lemma ImageRuleAdmits(file: UploadedFile)
    ensures IsValid([ImageRule], Some(file)) <==>
      file.size <= 5 * MB &&
      exists k :: 0 <= k < |ImageRule.suffixes| && EndsWith(ToLower(file.originalname), ImageRule.suffixes[k])
  {
    ImageSuffixesLower();
  }

  /** Whether a rule matches does not depend on the case of the name. */
  lemma MatchIgnoresCase(rule: TypeRule, name: string)
    ensures Matches(rule, ToUpper(name)) <==> Matches(rule, name)
    ensures Matches(rule, ToLower(name)) <==> Matches(rule, name)
  {
    assert ToLower(ToUpper(name)) == ToLower(name);
    assert ToLower(ToLower(name)) == ToLower(name);
  }
}
