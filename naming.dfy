// Ticket channel naming: `ticket-<username>`, lower-cased, with every
// character outside [a-z0-9-] removed (the `replace(/[^a-z0-9\-]/g, '')`).
module Naming {
  import opened Text

  predicate Allowed(c: char)
  {
    'a' <= c <= 'z' || '0' <= c <= '9' || c == '-'
  }

  predicate AllAllowed(s: string)
  {
    forall i :: 0 <= i < |s| ==> Allowed(s[i])
  }

  /** Drops every character outside [a-z0-9-], keeping the order of the rest. */
  function Strip(s: string): (r: string)
    ensures |r| <= |s|
    ensures AllAllowed(r)
  {
    if s == [] then []
    else (if Allowed(s[0]) then [s[0]] else []) + Strip(s[1..])
  }

  /** `.toLowerCase().replace(/[^a-z0-9\-]/g, '')`. */
  function Sanitize(s: string): (r: string)
    ensures AllAllowed(r)
    ensures |r| <= |s|
  {
    Strip(Lower(s))
  }

  /** On a single character the regex keeps it when allowed and drops it otherwise;
      with `StripAppend` this determines `Strip` on every string. */
  lemma StripChar(c: char)
    ensures Strip([c]) == if Allowed(c) then [c] else []
  {
    assert [c][1..] == [];
  }

  /** Stripping works character by character, so it distributes over concatenation. */
  lemma {:induction false} StripAppend(s: string, t: string)
    ensures Strip(s + t) == Strip(s) + Strip(t)
  {
    if s != [] {
      assert (s + t)[1..] == s[1..] + t;
      StripAppend(s[1..], t);
    } else {
      assert s + t == t;
    }
  }

  /** Stripping leaves a string unchanged exactly when all its characters are allowed. */
  lemma {:induction false} StripFixpoint(s: string)
    ensures Strip(s) == s <==> AllAllowed(s)
  {
    if s != [] {
      StripFixpoint(s[1..]);
      if AllAllowed(s) {
        assert AllAllowed(s[1..]);
        assert [s[0]] + s[1..] == s;
      }
    }
  }

  lemma LowerOfAllowed(s: string)
    requires AllAllowed(s)
    ensures Lower(s) == s
  {
  }

  /** Sanitising a sanitised name changes nothing. */
  lemma SanitizeIdempotent(s: string)
    ensures Sanitize(Sanitize(s)) == Sanitize(s)
  {
    var once := Sanitize(s);
    LowerOfAllowed(once);
    StripFixpoint(once);
  }

  /** Sanitising distributes over concatenation. */
  lemma SanitizeAppend(s: string, t: string)
    ensures Sanitize(s + t) == Sanitize(s) + Sanitize(t)
  {
    LowerAppend(s, t);
    StripAppend(Lower(s), Lower(t));
  }

  const TicketPrefix: string := "ticket-"

  lemma PrefixSanitized()
    ensures Sanitize(TicketPrefix) == TicketPrefix
  {
    assert AllAllowed(TicketPrefix) by {
      assert forall i :: 0 <= i < |TicketPrefix| ==> Allowed(TicketPrefix[i]);
    }
    LowerOfAllowed(TicketPrefix);
    StripFixpoint(TicketPrefix);
  }

  /** The name of the channel opened for a user with this username. */
  function TicketChannelName(username: string): (r: string)
    ensures |r| >= |TicketPrefix| && r[..|TicketPrefix|] == TicketPrefix
    ensures AllAllowed(r)
    ensures r == TicketPrefix + Sanitize(username)
  {
    SanitizeAppend(TicketPrefix, username);
    PrefixSanitized();
    Sanitize(TicketPrefix + username)
  }

  /** A ticket channel name is already in sanitised form. */
  lemma TicketNameStable(username: string)
    ensures Sanitize(TicketChannelName(username)) == TicketChannelName(username)
  {
    SanitizeIdempotent(TicketPrefix + username);
  }

  lemma LowerExample(u: string)
    requires u == "John_Doe!123"
    ensures Lower(u) == "john_doe!123"
  {
    var lowered := "john_doe!123";
    assert forall i :: 0 <= i < |lowered| ==> Lower(u)[i] == lowered[i];
  }

  lemma StripExample(u: string)
    requires u == "john_doe!123"
    ensures Strip(u) == "johndoe123"
  {
    var a, b, c, d, e := u[..4], u[4..5], u[5..8], u[8..9], u[9..];
    assert u == a + b + c + d + e;
    StripAppend(a + b + c + d, e);
    StripAppend(a + b + c, d);
    StripAppend(a + b, c);
    StripAppend(a, b);
    StripFixpoint(a);
    StripFixpoint(c);
    StripFixpoint(e);
    assert Strip(b) == [] && Strip(d) == [];
  }

  /** The worked example: `John_Doe!123` opens `ticket-johndoe123`. */
  lemma TicketNameExample(u: string)
    requires u == "John_Doe!123"
    ensures TicketChannelName(u) == "ticket-johndoe123"
  {
    LowerExample(u);
    StripExample(Lower(u));
  }
}
