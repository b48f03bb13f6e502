/** Page metadata in `fetch_url_metadata` (scraper.py:114-134): the page
    title and a description taken from the Open Graph tag, else from the
    plain description tag. */
module Metadata {
  import opened Wrappers
  import opened PyText

  /** A non-empty error message. Every request goes through a retry wrapper
      whose final error names its own class, so `str(e)` is never empty. */
  type Message = s: string | s != "" witness "error"

  /** What fetching a page yields: the error that ended the request, or the
      three pieces of the parsed page the scraper reads. Each piece is the
      text of `<title>`, of the `og:description` meta tag's `content`, and of
      the `description` meta tag's `content`; `None` when the element or the
      attribute is missing. */
  datatype Fetch =
    | FetchError(reason: Message)
    | Html(title: Option<string>, ogDescription: Option<string>, description: Option<string>)

  /** The record `fetch_url_metadata` returns. */
  datatype Meta = Meta(url: string, title: string, description: string, error: string)

  /** The text of a piece of the page; a missing one reads as empty. */
  function TextOf(piece: Option<string>): string
  {
    if piece.Some? then piece.value else ""
  }

  /** `x.strip() if x else ""`. */
  function Stripped(piece: Option<string>): (r: string)
    ensures Framed(TextOf(piece), r, Whitespace) && Bare(r, Whitespace)
  {
    var t := TextOf(piece);
    if t != "" then Trim(t)
    else
      assert FramedAt(t, "", Whitespace, 0);
      ""
  }

  /** The piece has some text after stripping. */
  predicate HasText(piece: Option<string>)
  {
    !AllIn(TextOf(piece), Whitespace)
  }

  /** `fetch_url_metadata(url)` given the outcome of fetching `url`.
      A failed fetch gives empty title and description and the error.
      Otherwise the error is empty, the title is the stripped `<title>`, and
      the description is the stripped Open Graph description when that has
      text, else the stripped plain description when that has text, else
      empty. An Open Graph description of blanks only thus falls back. */
  function FetchUrlMetadata(url: string, page: Fetch): (m: Meta)
    ensures m.url == url
    ensures page.FetchError? ==> m.title == "" && m.description == "" && m.error == page.reason && m.error != ""
    ensures page.Html? ==> (
      && m.error == ""
      && Framed(TextOf(page.title), m.title, Whitespace) && Bare(m.title, Whitespace)
      && Bare(m.description, Whitespace)
      && (HasText(page.ogDescription) ==> Framed(TextOf(page.ogDescription), m.description, Whitespace))
      && (!HasText(page.ogDescription) && HasText(page.description) ==> Framed(TextOf(page.description), m.description, Whitespace))
      && (!HasText(page.ogDescription) && !HasText(page.description) ==> m.description == ""))
  {
    match page
    case FetchError(e) => Meta(url, "", "", e)
    case Html(title, og, plain) =>
      StripEmptyIff(TextOf(og), Whitespace);
      StripEmptyIff(TextOf(plain), Whitespace);
      var preferred := Stripped(og);
      var desc := if preferred == "" then Stripped(plain) else preferred;
      Meta(url, Stripped(title), desc, "")
  }

  /** The description is exactly the stripped text the fallback chain picks,
      so the contract above leaves no freedom. */
  lemma DescriptionChoice(url: string, page: Fetch)
    requires page.Html?
    ensures var d := FetchUrlMetadata(url, page).description;
      && (HasText(page.ogDescription) ==> d == Trim(TextOf(page.ogDescription)))
      && (!HasText(page.ogDescription) && HasText(page.description) ==> d == Trim(TextOf(page.description)))
      && FetchUrlMetadata(url, page).title == Trim(TextOf(page.title))
  {
    var m := FetchUrlMetadata(url, page);
    StripUnique(TextOf(page.title), Whitespace, m.title);
    if HasText(page.ogDescription) {
      StripUnique(TextOf(page.ogDescription), Whitespace, m.description);
    } else if HasText(page.description) {
      StripUnique(TextOf(page.description), Whitespace, m.description);
    }
  }
}
