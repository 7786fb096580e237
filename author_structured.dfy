/** An author page's structured data
    (app/structured-data/AuthorStructuredData.tsx): a WebPage whose author is
    a Person described by their education and experience. */
module AuthorStructured {
  import opened Js

  datatype Author = Author(
    name: string,
    avatar: string,
    role: string,
    education: string,
    workExperience: string,
    additionalQualification: string)

  datatype Person = Person(name: string, image: Option<string>, jobTitle: Option<string>, description: string)

  datatype AuthorPage = AuthorPage(url: string, inLanguage: string, author: Person)

  /** `s || undefined`. */
  function OrUndefined(s: string): (r: Option<string>)
    ensures r.None? <==> s == ""
    ensures r.Some? ==> r.value == s
  {
    if s == "" then None else Some(s)
  }

  /** `[education, work_experience, additional_qualification]
      .filter(Boolean).join(", ")`. */
  function Description(a: Author): string
  {
    Join(NonEmpty([a.education, a.workExperience, a.additionalQualification]), ", ")
  }

  /** `AuthorStructuredData`: nothing without an author. */
  function AuthorSchema(author: Option<Author>, locale: string, pageUrl: string): (r: Option<AuthorPage>)
    ensures r.Some? <==> author.Some?
    ensures r.Some? ==>
      && r.value.url == pageUrl
      && r.value.inLanguage == locale
      && r.value.author.name == author.value.name
      && r.value.author.image == OrUndefined(author.value.avatar)
      && r.value.author.jobTitle == OrUndefined(author.value.role)
      && r.value.author.description == Description(author.value)
  {
    match author
    case None => None
    case Some(a) =>
      Some(AuthorPage(pageUrl, locale, Person(a.name, OrUndefined(a.avatar), OrUndefined(a.role), Description(a))))
  }

  function Present(s: string): seq<string>
  {
    if s == "" then [] else [s]
  }

  /** `filter(Boolean)` on the three fields keeps the non-empty ones in order. */
  lemma PiecesKept(a: Author)
    ensures NonEmpty([a.education, a.workExperience, a.additionalQualification])
         == Present(a.education) + Present(a.workExperience) + Present(a.additionalQualification)
  {
    var pieces := [a.education, a.workExperience, a.additionalQualification];
    assert pieces[1..] == [a.workExperience, a.additionalQualification];
    assert pieces[1..][1..] == [a.additionalQualification];
    assert pieces[1..][1..][1..] == [];
    assert NonEmpty(pieces[1..][1..]) == Present(a.additionalQualification);
    assert NonEmpty(pieces[1..]) == Present(a.workExperience) + Present(a.additionalQualification);
  }

  /** The description is empty exactly when all three fields are. */
  lemma DescriptionEmptyIff(a: Author)
    ensures Description(a) == "" <==>
      a.education == "" && a.workExperience == "" && a.additionalQualification == ""
  {
    PiecesKept(a);
    var kept := Present(a.education) + Present(a.workExperience) + Present(a.additionalQualification);
    if kept != [] {
      assert kept[0] != "";
      if |kept| > 1 {
        assert Join(kept, ", ") == kept[0] + ", " + Join(kept[1..], ", ");
      }
    }
  }

  /** With all three fields present they are listed in order, separated by
      ", ". */
  lemma DescriptionAllPresent(a: Author)
    requires a.education != "" && a.workExperience != "" && a.additionalQualification != ""
    ensures Description(a) == a.education + ", " + a.workExperience + ", " + a.additionalQualification
  {
    PiecesKept(a);
    var all := [a.education, a.workExperience, a.additionalQualification];
    assert NonEmpty(all) == all;
    var tail := all[1..];
    assert tail == [a.workExperience, a.additionalQualification];
    assert tail[1..] == [a.additionalQualification];
    assert Join(tail[1..], ", ") == a.additionalQualification;
    assert Join(tail, ", ") == a.workExperience + ", " + a.additionalQualification;
    assert Join(all, ", ") == a.education + ", " + Join(tail, ", ");
  }

  /** A single present field is the whole description. */
  lemma DescriptionOnePresent(a: Author)
    requires a.education == "" && a.workExperience != "" && a.additionalQualification == ""
    ensures Description(a) == a.workExperience
  {
    PiecesKept(a);
    assert Present(a.education) + Present(a.workExperience) + Present(a.additionalQualification) == [a.workExperience];
  }
}
