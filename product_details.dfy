/**
 * The planet detail page of src/pages/landing/ProductDetails.tsx. A fetch
 * hook loads the planet named by the route; whenever a new planet arrives,
 * the films effect resets the film state, fetches every film address in
 * parallel and keeps either all the films, in order, or none of them and
 * one failure's message.
 */
module ProductDetails {
  import opened Optional
  import Text
  import opened FetchHook

  datatype Film = Film(title: string, releaseDate: string)

  /** The parts of a planet payload the page uses; any of them may be missing. */
  datatype PlanetDetail = PlanetDetail(
    name: string, climate: Option<string>, terrain: Option<string>, films: Option<seq<string>>)

  /** What `fetch(url)` settles with: a response with its status and JSON body, or a network failure. */
  datatype FilmFetch = FilmResponse(status: nat, body: Film) | NetworkFailure(message: string)

  /** The result of the parallel join. */
  datatype Joined = AllFilms(films: seq<Film>) | FirstFailure(message: string)

  const PlanetPrefix := "/planets/"

  const FilmFailPrefix := "Film fetch failed: "

  /** `res.ok`: a response with a status in the 200 range; a network failure is never ok. */
  function FilmOk(f: FilmFetch): (ok: bool)
    ensures f.NetworkFailure? ==> !ok
    ensures f.FilmResponse? ==> (ok <==> 200 <= f.status < 300)
  {
    f.FilmResponse? && 200 <= f.status <= 299
  }

  /**
   * The message a failed film fetch rejects with: the status, readable from
   * behind a fixed prefix, for a response that is not ok; the failure's own
   * message otherwise.
   */
  function FilmError(f: FilmFetch): (e: string)
    requires !FilmOk(f)
    ensures f.FilmResponse? ==> |e| > |FilmFailPrefix| && e[..|FilmFailPrefix|] == FilmFailPrefix
    ensures f.FilmResponse? ==> Text.IsDigits(e[|FilmFailPrefix|..]) && Text.ParseNat(e[|FilmFailPrefix|..]) == f.status
    ensures f.NetworkFailure? ==> e == f.message
  {
    match f
    case FilmResponse(status, _) =>
      Text.NumberAfterPrefix(FilmFailPrefix, status);
      FilmFailPrefix + Text.NatToString(status)
    case NetworkFailure(message) => message
  }

  /**
   * `Promise.all` over the film fetches: all the bodies in the order of the
   * addresses when every fetch succeeds, otherwise the message of a failing
   * fetch (the first one in address order) and no films at all.
   */
  function JoinFilms(urls: seq<string>, respond: string -> FilmFetch): (r: Joined)
    ensures r.AllFilms? <==> forall i | 0 <= i < |urls| :: FilmOk(respond(urls[i]))
    ensures r.AllFilms? ==> |r.films| == |urls|
    ensures r.AllFilms? ==> forall i | 0 <= i < |urls| :: r.films[i] == respond(urls[i]).body
    ensures r.FirstFailure? ==> exists i | 0 <= i < |urls| ::
              && !FilmOk(respond(urls[i]))
              && r.message == FilmError(respond(urls[i]))
              && forall j | 0 <= j < i :: FilmOk(respond(urls[j]))
  {
    if urls == [] then AllFilms([])
    else
      var head := respond(urls[0]);
      if !FilmOk(head) then FirstFailure(FilmError(head))
      else
        var rest := JoinFilms(urls[1..], respond);
        assert forall i | 1 <= i < |urls| :: urls[i] == urls[1..][i - 1];
        match rest
        case AllFilms(films) => AllFilms([head.body] + films)
        case FirstFailure(message) =>
          assert exists i | 1 <= i < |urls| ::
              && !FilmOk(respond(urls[i]))
              && message == FilmError(respond(urls[i]))
              && forall j | 0 <= j < i :: FilmOk(respond(urls[j]));
          rest
  }

  /** A single failing fetch empties the whole result: no partial list. */
  lemma OneFailureSpoilsAll(urls: seq<string>, respond: string -> FilmFetch, k: nat)
    requires k < |urls| && !FilmOk(respond(urls[k]))
    ensures JoinFilms(urls, respond).FirstFailure?
  {
  }

  /** The planet address, or "" (no fetch) when the route gives no id. */
  function PlanetUrl(productId: Option<string>): (u: string)
    ensures u == "" <==> productId.None? || productId.value == ""
    ensures u != "" ==> u == PlanetPrefix + productId.value
  {
    if productId.Some? && productId.value != "" then PlanetPrefix + productId.value else ""
  }

  /** The items of every piece. */
  function TrimAll(parts: seq<string>): (r: seq<string>)
    ensures |r| == |parts| && forall i | 0 <= i < |r| :: r[i] == Text.Trim(parts[i])
  {
    seq(|parts|, i requires 0 <= i < |parts| => Text.Trim(parts[i]))
  }

  /**
   * `splitByComma`: the comma-separated items of a text field, trimmed,
   * without empty ones, in their order; nothing for a missing field.
   */
  function SplitByComma(value: Option<string>): (items: Option<seq<string>>)
    ensures items.None? <==> value.None?
    ensures items.Some? ==> forall it <- items.value :: it != "" && ',' !in it && Text.Trimmed(it)
  {
    match value
    case None => None
    case Some(v) =>
      var parts := Text.Split(v, ',');
      Text.SplitPiecesFree(v, ',');
      var trimmed := TrimAll(parts);
      assert forall it <- trimmed :: ',' !in it && Text.Trimmed(it) by {
        forall it <- trimmed ensures ',' !in it && Text.Trimmed(it) {
          var i :| 0 <= i < |trimmed| && trimmed[i] == it;
          assert parts[i] in parts;
          if ',' in it {
            Text.TrimKeepsChars(parts[i], ',');
          }
        }
      }
      Some(Text.DropEmpty(trimmed))
  }

  /** The ", "-joined list the API sends, item by item. */
  function Padded(items: seq<string>): (r: seq<string>)
    ensures |r| == |items|
  {
    if |items| <= 1 then items else Padded(items[..|items| - 1]) + [[' '] + items[|items| - 1]]
  }

  lemma {:induction false} JoinPadded(items: seq<string>)
    requires |items| >= 1
    ensures Text.Join(items, ", ") == Text.Join(Padded(items), ",")
  {
    if |items| > 1 {
      JoinPadded(items[..|items| - 1]);
      JoinSnoc(items[..|items| - 1], items[|items| - 1], ", ");
      JoinSnoc(Padded(items[..|items| - 1]), [' '] + items[|items| - 1], ",");
      assert items == items[..|items| - 1] + [items[|items| - 1]];
    }
  }

  lemma {:induction false} JoinSnoc(items: seq<string>, last: string, sep: string)
    requires |items| >= 1
    ensures Text.Join(items + [last], sep) == Text.Join(items, sep) + sep + last
  {
    if |items| == 1 {
      assert (items + [last])[1..] == [last];
    } else {
      assert (items + [last])[1..] == items[1..] + [last];
      JoinSnoc(items[1..], last, sep);
    }
  }

  lemma {:induction false} PaddedAt(items: seq<string>, i: nat)
    requires i < |items|
    ensures Padded(items)[i] == if i == 0 then items[0] else [' '] + items[i]
  {
    if |items| > 1 && i < |items| - 1 {
      PaddedAt(items[..|items| - 1], i);
    }
  }

  /**
   * A field written the way the API writes lists ("arid, temperate") is
   * split back into exactly its items.
   */
  lemma {:induction false} SplitByCommaOfJoined(items: seq<string>)
    requires forall it <- items :: it != "" && ',' !in it && Text.Trimmed(it)
    ensures SplitByComma(Some(Text.Join(items, ", "))) == Some(items)
  {
    if items == [] {
      assert Text.Split([], ',') == [[]];
      assert TrimAll([[]]) == [[]];
    } else {
      var padded := Padded(items);
      JoinPadded(items);
      PaddedFree(items);
      Text.SplitJoin(padded, ',');
      TrimPadded(items);
      Text.DropEmptyKeepsNonEmpty(items);
    }
  }

  /** The padded pieces keep the items' freedom from commas. */
  lemma PaddedFree(items: seq<string>)
    requires forall it <- items :: ',' !in it
    ensures forall p <- Padded(items) :: ',' !in p
  {
    var padded := Padded(items);
    forall p <- padded ensures ',' !in p {
      var i :| 0 <= i < |padded| && padded[i] == p;
      PaddedAt(items, i);
      assert items[i] in items;
    }
  }

  /** Trimming the padded pieces gives the items back. */
  lemma TrimPadded(items: seq<string>)
    requires forall it <- items :: it != "" && Text.Trimmed(it)
    ensures TrimAll(Padded(items)) == items
  {
    var trimmed := TrimAll(Padded(items));
    forall i | 0 <= i < |items| ensures trimmed[i] == items[i] {
      PaddedAt(items, i);
      assert items[i] in items;
      if i == 0 {
        Text.TrimKeepsTrimmed(items[0]);
      } else {
        Text.TrimAfterSpace(items[i]);
      }
    }
  }

  /** Whether a change of the route's id makes the planet hook fetch: the address changed to a non-empty one. */
  predicate Refetches(oldUrl: string, productId: Option<string>)
  {
    PlanetUrl(productId) != oldUrl && PlanetUrl(productId) != ""
  }

  /** The detail page: the planet hook and the film state of the films effect. */
  class DetailPage {
    const planet: Hook<PlanetDetail>
    var films: seq<Film>
    var filmsLoading: bool
    var filmsError: string

    /** `isLoadingAny`: the overlay shows while either the planet or the films load. */
    function IsLoadingAny(): (r: bool)
      reads this, planet
      ensures planet.loading ==> r
      ensures filmsLoading ==> r
      ensures r ==> planet.loading || filmsLoading
    {
      planet.loading || filmsLoading
    }

    /** Whether the films effect does anything: a planet with a films list. */
    function FilmUrls(): Option<seq<string>>
      reads planet
    {
      if planet.data.Some? then planet.data.value.films else None
    }

    /**
     * Mounting on the route's id: the planet is fetched, and when a planet
     * arrives the films effect runs on it.
     */
    constructor (productId: Option<string>, planetOutcome: Outcome<PlanetDetail>, respond: string -> FilmFetch)
      ensures fresh(planet) && planet.url == PlanetUrl(productId)
      ensures planet.State() == if PlanetUrl(productId) == "" then Initial() else Fetched(Initial(), planetOutcome)
      ensures !IsLoadingAny()
      ensures FilmUrls().None? ==> films == [] && filmsError == ""
      ensures FilmUrls().Some? ==> match JoinFilms(FilmUrls().value, respond)
                                   case AllFilms(fs) => films == fs && filmsError == ""
                                   case FirstFailure(m) => films == [] && filmsError == m
    {
      planet := new Hook(PlanetUrl(productId), planetOutcome);
      films, filmsLoading, filmsError := [], false, "";
      new;
      FilmsEffect(respond);
    }

    /** The effect's first step: no films, loading, no error. */
    method ResetFilms()
      modifies this
      ensures films == [] && filmsLoading && filmsError == ""
    {
      films := [];
      filmsLoading := true;
      filmsError := "";
    }

    /** The effect's last step: all films or the failure, then loading cleared. */
    method SettleFilms(urls: seq<string>, respond: string -> FilmFetch)
      modifies this
      ensures !filmsLoading
      ensures match JoinFilms(urls, respond)
              case AllFilms(fs) => films == fs && filmsError == old(filmsError)
              case FirstFailure(m) => films == old(films) && filmsError == m
    {
      match JoinFilms(urls, respond) {
        case AllFilms(fs) => films := fs;
        case FirstFailure(m) => filmsError := m;
      }
      filmsLoading := false;
    }

    /** The films effect, run whenever a new planet value arrives. */
    method FilmsEffect(respond: string -> FilmFetch)
      modifies this
      ensures FilmUrls().None? ==> films == old(films) && filmsLoading == old(filmsLoading) && filmsError == old(filmsError)
      ensures FilmUrls().Some? ==> IsLoadingAny() == planet.loading
      ensures FilmUrls().Some? ==> !filmsLoading && match JoinFilms(FilmUrls().value, respond)
                                   case AllFilms(fs) => films == fs && filmsError == ""
                                   case FirstFailure(m) => films == [] && filmsError == m
    {
      var urls := FilmUrls();
      if urls.None? {
        return;
      }
      ResetFilms();
      SettleFilms(urls.value, respond);
    }

    /**
     * The route's id changes: the hook refetches when the address changed,
     * and the films effect runs again only if a new planet arrived. A failed
     * planet fetch leaves the previous planet and its films in place.
     */
    method ChangeProduct(productId: Option<string>, planetOutcome: Outcome<PlanetDetail>, respond: string -> FilmFetch)
      requires !filmsLoading
      modifies this, planet
      ensures planet.url == PlanetUrl(productId)
      ensures !filmsLoading
      ensures if Refetches(old(planet.url), productId)
              then planet.State() == Fetched(old(planet.State()), planetOutcome) && !IsLoadingAny()
              else planet.State() == old(planet.State())
      ensures Refetches(old(planet.url), productId) && Succeeded(planetOutcome) && FilmUrls().Some? ==>
                match JoinFilms(FilmUrls().value, respond)
                case AllFilms(fs) => films == fs && filmsError == ""
                case FirstFailure(m) => films == [] && filmsError == m
      ensures !(Refetches(old(planet.url), productId) && Succeeded(planetOutcome)) ==>
                films == old(films) && filmsError == old(filmsError) && planet.data == old(planet.data)
      ensures Refetches(old(planet.url), productId) && Succeeded(planetOutcome) && FilmUrls().None? ==>
                films == old(films) && filmsError == old(filmsError)
    {
      var refetches := Refetches(planet.url, productId);
      planet.SetUrl(PlanetUrl(productId), planetOutcome);
      if refetches && Succeeded(planetOutcome) {
        FilmsEffect(respond);
      }
    }
  }
}
