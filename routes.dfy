/** The route handlers of the link shortener that read or write the `urls`
    collection. Each handler is one atomic step over the collection and
    returns the response it sends: a rendered view with its data, a
    redirect, or plain text. */
module Routes {
  import opened Normalizer
  import opened LinkStore

  /** The data a view is rendered with. */
  datatype Payload =
    | Urls(urls: seq<Link>)      // `{ urls: data }` for the listing
    | Record(link: Link)        // one record's short code and long URL
    | Code(shortURL: string)    // `{ shortURL: id }` for the not-found page

  datatype Response =
    | Render(view: string, payload: Payload)
    | Redirect(url: string)
    | Send(text: string)

  const UrlsIndexView := "urls_index"
  const UrlsInfoView := "urls_info"
  const UrlsShowView := "urls_show"
  const NotFoundView := "not_found"
  const ListingPath := "/urls"
  const FailureText := "Something went wrong!"

  /** The server's view of the `urls` collection. */
  class Server {
    var urls: seq<Link>

    /** Every stored long URL went through the normaliser. */
    ghost predicate Valid()
      reads this
    {
      AllSchemed(urls)
    }

    constructor (initial: seq<Link>)
      ensures urls == initial
    {
      urls := initial;
    }

    /** GET /urls/:id — the detail page of the first record with that code,
        or the not-found page carrying the requested code. */
    method UrlInfo(id: string) returns (resp: Response)
      ensures !HasCode(urls, id) ==> resp == Render(NotFoundView, Code(id))
      ensures HasCode(urls, id) ==>
                exists i: nat :: IsFirstMatch(urls, id, i) && resp == Render(UrlsInfoView, Record(urls[i]))
    {
      match FindOne(urls, id)
      case None => resp := Render(NotFoundView, Code(id));
      case Some(link) => resp := Render(UrlsInfoView, Record(link));
    }

    /** POST /urls — stores the normalised long URL under the generated code
        `code` (not checked for uniqueness) and renders the new listing. */
    method CreateUrl(longURL: string, code: string) returns (resp: Response)
      modifies this
      ensures urls == old(urls) + [Link(code, CheckForHttpPrefix(longURL))]
      ensures resp == Render(UrlsIndexView, Urls(urls))
      ensures old(Valid()) ==> Valid()
    {
      var prefaced := CheckForHttpPrefix(longURL);
      if Valid() { SchemedAfterInsert(urls, Link(code, prefaced)); }
      urls := urls + [Link(code, prefaced)];
      resp := Render(UrlsIndexView, Urls(urls));
    }

    /** GET /u/:id — redirects to the long URL of the first record with that
        code, or renders the not-found page carrying the requested code. */
    method FollowShortLink(id: string) returns (resp: Response)
      ensures resp.Redirect? <==> HasCode(urls, id)
      ensures resp.Redirect? ==> exists i: nat :: IsFirstMatch(urls, id, i) && resp.url == urls[i].longURL
      ensures !resp.Redirect? ==> resp == Render(NotFoundView, Code(id))
      ensures Valid() && resp.Redirect? ==> HasScheme(resp.url)
    {
      match FindOne(urls, id)
      case None => resp := Render(NotFoundView, Code(id));
      case Some(link) => resp := Redirect(link.longURL);
    }

    /** DELETE /urls/:id — checks that the code exists, then removes its first
        record and redirects to the listing; otherwise reports a failure. */
    method DeleteUrl(id: string) returns (resp: Response)
      modifies this
      ensures !HasCode(old(urls), id) ==> urls == old(urls) && resp == Send(FailureText)
      ensures HasCode(old(urls), id) ==>
                urls == RemoveFirst(old(urls), id) && |urls| == |old(urls)| - 1 && resp == Redirect(ListingPath)
      ensures old(Valid()) ==> Valid()
    {
      var result := FindOne(urls, id);
      if result.None? {
        resp := Send(FailureText);
      } else {
        if Valid() { SchemedAfterRemove(urls, id); }
        urls := RemoveFirst(urls, id);
        resp := Redirect(ListingPath);
      }
    }

    /** GET /urls/show/:id — the edit form pre-filled from the first record
        with that code, or a failure message. */
    method EditForm(id: string) returns (resp: Response)
      ensures !HasCode(urls, id) ==> resp == Send(FailureText)
      ensures HasCode(urls, id) ==>
                exists i: nat :: IsFirstMatch(urls, id, i) && resp == Render(UrlsShowView, Record(urls[i]))
    {
      match FindOne(urls, id)
      case None => resp := Send(FailureText);
      case Some(link) => resp := Render(UrlsShowView, Record(Link(link.shortURL, link.longURL)));
    }

    /** PUT /urls/:id — sets the normalised long URL on the first record with
        that code, without first checking that one exists, and redirects to
        the listing either way. */
    method UpdateUrl(id: string, longURL: string) returns (resp: Response)
      modifies this
      ensures urls == UpdateFirst(old(urls), id, CheckForHttpPrefix(longURL))
      ensures !HasCode(old(urls), id) ==> urls == old(urls)
      ensures resp == Redirect(ListingPath)
      ensures old(Valid()) ==> Valid()
    {
      var prefaced := CheckForHttpPrefix(longURL);
      if Valid() { SchemedAfterUpdate(urls, id, prefaced); }
      urls := UpdateFirst(urls, id, prefaced);
      resp := Redirect(ListingPath);
    }
  }

  // -----------------------------------------------------------------------
  // Request sequences a client can rely on

  /** POST /urls under a code not yet in use, then GET /u/<code>, redirects
      to the normalised submitted long URL. */
  method CreateThenFollow(initial: seq<Link>, longURL: string, code: string) returns (resp: Response)
    requires !HasCode(initial, code)
    ensures resp == Redirect(CheckForHttpPrefix(longURL))
  {
    var server := new Server(initial);
    var _ := server.CreateUrl(longURL, code);
    FindAfterInsert(initial, Link(code, CheckForHttpPrefix(longURL)), code);
    resp := server.FollowShortLink(code);
  }

  /** POST /urls with `example.com` under a code not yet in use, then
      GET /u/<code>, redirects to `http://example.com`. */
  method CreateExampleThenFollow(initial: seq<Link>, code: string) returns (resp: Response)
    requires !HasCode(initial, code)
    // a concatenation, not one literal: the solver proves this form reliably
    ensures resp == Redirect("http://" + "example.com")
  {
    resp := CreateThenFollow(initial, "example.com", code);
    ExampleBareHost();
  }

  /** PUT /urls/:id, then GET /urls/show/:id, shows the new normalised long
      URL under the unchanged short code. */
  method UpdateThenEditForm(initial: seq<Link>, id: string, longURL: string) returns (resp: Response)
    requires HasCode(initial, id)
    ensures resp == Render(UrlsShowView, Record(Link(id, CheckForHttpPrefix(longURL))))
  {
    var server := new Server(initial);
    var _ := server.UpdateUrl(id, longURL);
    FindAfterUpdate(initial, id, CheckForHttpPrefix(longURL));
    resp := server.EditForm(id);
  }

  /** PUT /urls/abc123 when no record has that code creates and changes
      nothing and still redirects to the listing. */
  method UpdateMissing(initial: seq<Link>) returns (resp: Response, after: seq<Link>)
    requires !HasCode(initial, "abc123")
    ensures resp == Redirect(ListingPath) && after == initial
  {
    var server := new Server(initial);
    resp := server.UpdateUrl("abc123", "https://foo.com");
    after := server.urls;
  }

  /** DELETE /urls/:id of a code stored at most once, then GET /u/:id,
      renders the not-found page for that code. */
  method DeleteThenFollow(initial: seq<Link>, id: string) returns (resp: Response)
    requires Count(initial, id) <= 1
    ensures resp == Render(NotFoundView, Code(id))
  {
    var server := new Server(initial);
    var _ := server.DeleteUrl(id);
    FindAfterRemove(initial, id);
    resp := server.FollowShortLink(id);
  }

  /** GET /urls/new. Routes are tried in registration order and GET /urls/:id
      comes first and always responds, so the request is the detail-page
      lookup of the short code `new`: the creation form is never served. */
  method NewFormShadowed(initial: seq<Link>) returns (resp: Response)
    requires !HasCode(initial, "new")
    ensures resp == Render(NotFoundView, Code("new"))
  {
    var server := new Server(initial);
    resp := server.UrlInfo("new");
  }
}
