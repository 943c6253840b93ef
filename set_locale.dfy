/**
 * The `SetLocale` middleware: which locale a request runs under. A locale given with the
 * request comes first, then the logged-in user's own locale, then the one kept in the session;
 * the application locale and the session's locale are the state it changes.
 */
module Locales {
  import opened Common

  /** The request as the middleware reads it: whether it has a `locale` input, and its value. */
  datatype Request = Request(locale: Option<string>)

  /** The logged-in user; `locale` is their stored preference (null when unset). */
  datatype User = User(locale: Option<string>)

  /** What a request changes: a new application locale, a new session locale (`None`: left as it was). */
  datatype Outcome = Outcome(appLocale: Option<string>, sessionLocale: Option<string>)

  /** The keys of `languages.available` in the configuration, `['en' => 'English']` when it has none. */
  function AvailableLocales(configured: Option<set<string>>): (r: set<string>)
    ensures configured.None? ==> r == {"en"}
    ensures configured.Some? ==> r == configured.value
  {
    configured.GetOr({"en"})
  }

  /**
   * The decision `handle` makes. A request locale is taken, app and session alike, when it is
   * available, and an unavailable one changes nothing without looking further; without one, a
   * logged-in user's truthy locale becomes the application locale unchecked; failing that, the
   * session's locale becomes the application locale when it is available.
   */
  function Decide(request: Request, user: Option<User>, session: Option<string>, available: set<string>): (o: Outcome)
    ensures o.sessionLocale.Some? <==> (request.locale.Some? && request.locale.value in available)
    ensures o.sessionLocale.Some? ==> o.sessionLocale == request.locale && o.appLocale == request.locale
    ensures request.locale.Some? && request.locale.value !in available ==> o == Outcome(None, None)
    ensures request.locale.None? && user.Some? && TruthyOpt(user.value.locale) ==> o == Outcome(user.value.locale, None)
    ensures o.appLocale.Some? ==> o.appLocale.value in available || (request.locale.None? && user.Some? && o.appLocale == user.value.locale)
  {
    if request.locale.Some? then
      if request.locale.value in available then Outcome(request.locale, request.locale) else Outcome(None, None)
    else if user.Some? && TruthyOpt(user.value.locale) then Outcome(user.value.locale, None)
    else if session.Some? && session.value in available then Outcome(session, None)
    else Outcome(None, None)
  }

  /** A request that names a locale decides alone: the user and the session are not consulted. */
  lemma RequestLocaleDecidesAlone(request: Request, u1: Option<User>, u2: Option<User>, s1: Option<string>, s2: Option<string>, available: set<string>)
    requires request.locale.Some?
    ensures Decide(request, u1, s1, available) == Decide(request, u2, s2, available)
  {
  }

  /** Without a request locale, a user's truthy locale wins over whatever the session holds. */
  lemma UserLocaleBeatsSession(request: Request, user: User, s1: Option<string>, s2: Option<string>, available: set<string>)
    requires request.locale.None? && TruthyOpt(user.locale)
    ensures Decide(request, Some(user), s1, available) == Decide(request, Some(user), s2, available)
  {
  }

  /**
   * The session branch: with no request locale and no usable user locale, the application
   * takes the session's locale exactly when it is available, and the session is not written.
   */
  lemma SessionLocaleWhenAvailable(request: Request, user: Option<User>, session: Option<string>, available: set<string>)
    requires request.locale.None? && !(user.Some? && TruthyOpt(user.value.locale))
    ensures Decide(request, user, session, available).sessionLocale.None?
    ensures Decide(request, user, session, available).appLocale.Some? <==> (session.Some? && session.value in available)
    ensures Decide(request, user, session, available).appLocale.Some? ==> Decide(request, user, session, available).appLocale == session
  {
  }

  /** The application locale and the session's locale, the state the middleware writes. */
  class LocaleState {
    var appLocale: string
    var sessionLocale: Option<string>

    constructor (app: string, session: Option<string>)
      ensures appLocale == app && sessionLocale == session
    {
      appLocale := app;
      sessionLocale := session;
    }

    /**
     * `handle`: sets the locales as `Decide` says, then passes the request on to `next`
     * exactly once, unchanged, under the application locale now in force.
     */
    method Handle<R>(request: Request, user: Option<User>, configured: Option<set<string>>, next: (Request, string) -> R)
      returns (response: R)
      modifies this
      ensures var o := Decide(request, user, old(sessionLocale), AvailableLocales(configured));
              appLocale == o.appLocale.GetOr(old(appLocale)) && sessionLocale == (if o.sessionLocale.Some? then o.sessionLocale else old(sessionLocale))
      ensures response == next(request, appLocale)
    {
      if request.locale.Some? {
        var locale := request.locale.value;
        var availableLocales := AvailableLocales(configured);
        if locale in availableLocales {
          appLocale := locale;
          sessionLocale := Some(locale);
        }
      } else if user.Some? && TruthyOpt(user.value.locale) {
        appLocale := user.value.locale.value;
      } else if sessionLocale.Some? {
        var locale := sessionLocale.value;
        var availableLocales := AvailableLocales(configured);
        if locale in availableLocales {
          appLocale := locale;
        }
      }
      response := next(request, appLocale);
    }
  }
}
