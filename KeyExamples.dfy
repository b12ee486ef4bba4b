/**
 * The key of the documented example: class `User` with table `users`,
 * `cache_find_by :email`, and a lookup by an e-mail address.
 */
module KeyExamples {
  import opened UriEscape
  import opened Sorting
  import opened CacheKeys

  lemma EscapeAtSign()
    ensures EscapeChar('@') == "%40"
  {
    assert Utf8('@') == [0x40];
    assert EscapeBytes([0x40]) == "%40" + EscapeBytes([]);
  }

  /** Only the `@` of an address made of unreserved characters is escaped. */
  lemma EscapeAddress(local: string, domain: string)
    requires forall i :: 0 <= i < |local| ==> Unreserved(local[i])
    requires forall i :: 0 <= i < |domain| ==> Unreserved(domain[i])
    ensures Escape(local + "@" + domain) == local + "%40" + domain
  {
    EscapeAtSign();
    EscapeUnreservedIdentity(local);
    EscapeUnreservedIdentity(domain);
    EscapeAppend(local + "@", domain);
    EscapeAppend(local, "@");
    EscapeCons("@");
    EscapeCons([]);
  }

  /** The namespace segment is made of unreserved characters only. */
  lemma NamespaceUnescaped()
    ensures Escape(Namespace) == Namespace
  {
    // Through a variable: stated on the literal itself, `Escape` would be
    // unfolded character by character.
    var s := Namespace;
    assert forall i :: 0 <= i < |s| ==> Unreserved(s[i]);
    EscapeUnreservedIdentity(s);
  }

  lemma SingleAttributeParts(table: string, field: string, v: Value)
    ensures Parts(table, [(field, v)]) == [Namespace, table, field, ToS(v)]
  {
    var attrs := [(field, v)];
    assert Stringify(attrs) == [(field, ToS(v))];
    assert SortBy(Stringify(attrs), FieldOf) == [(field, ToS(v))];
    assert Flatten([(field, ToS(v))]) == [field, ToS(v)];
  }

  lemma EscapeFour(a: string, b: string, c: string, d: string)
    ensures EscapeAll([a, b, c, d]) == [Escape(a), Escape(b), Escape(c), Escape(d)]
  {
    var parts := [a, b, c, d];
    assert EscapeAll(parts[3..]) == [Escape(d)];
    assert EscapeAll(parts[2..]) == [Escape(c)] + EscapeAll(parts[3..]);
    assert EscapeAll(parts[1..]) == [Escape(b)] + EscapeAll(parts[2..]);
  }

  lemma JoinFour(a: string, b: string, c: string, d: string)
    ensures Join([a, b, c, d]) == a + "/" + b + "/" + c + "/" + d
  {
    var parts := [a, b, c, d];
    assert Join(parts[2..]) == c + "/" + d;
    assert Join(parts[1..]) == b + "/" + c + "/" + d;
  }

  /** The key of a lookup by one attribute. */
  lemma SingleAttributeKey(table: string, field: string, v: Value)
    ensures CacheKeyFor(table, [(field, v)])
         == Namespace + "/" + Escape(table) + "/" + Escape(field) + "/" + Escape(ToS(v))
  {
    SingleAttributeParts(table, field, v);
    EscapeFour(Namespace, table, field, ToS(v));
    JoinFour(Escape(Namespace), Escape(table), Escape(field), Escape(ToS(v)));
    NamespaceUnescaped();
  }

  /** Escaping leaves unreserved names alone and turns the `@` into `%40`. */
  lemma EscapeAddressPieces(prefix: string, table: string, field: string, local: string, domain: string)
    requires forall i :: 0 <= i < |table| ==> Unreserved(table[i])
    requires forall i :: 0 <= i < |field| ==> Unreserved(field[i])
    requires forall i :: 0 <= i < |local| ==> Unreserved(local[i])
    requires forall i :: 0 <= i < |domain| ==> Unreserved(domain[i])
    ensures prefix + "/" + Escape(table) + "/" + Escape(field) + "/" + Escape(local + "@" + domain)
         == prefix + "/" + table + "/" + field + "/" + local + "%40" + domain
  {
    EscapeUnreservedIdentity(table);
    EscapeUnreservedIdentity(field);
    EscapeAddress(local, domain);
  }

  /**
   * Looking up a model whose table and field names are plain identifiers
   * (`users`, `email`) by the address `local@domain`: the key is
   * `cache_find_by/users/email/local%40domain`.
   */
  lemma AddressKey(table: string, field: string, local: string, domain: string)
    requires forall i :: 0 <= i < |table| ==> Unreserved(table[i])
    requires forall i :: 0 <= i < |field| ==> Unreserved(field[i])
    requires forall i :: 0 <= i < |local| ==> Unreserved(local[i])
    requires forall i :: 0 <= i < |domain| ==> Unreserved(domain[i])
    ensures CacheKeyFor(table, [(field, Str(local + "@" + domain))])
         == Namespace + "/" + table + "/" + field + "/" + local + "%40" + domain
  {
    SingleAttributeKey(table, field, Str(local + "@" + domain));
    EscapeAddressPieces(Namespace, table, field, local, domain);
  }
}
