/** The per-category lookup tables: the category's key as the app spells it,
    its chart label, its chart colour and its icon. A key outside the nine
    falls back to the `other` entry, as the lookups do with `|| table.other`. */
module Categories {
  import opened Common
  import opened Types

  /** The string key of a category. */
  function Key(c: Category): string
  {
    match c
    case Food => "food"
    case Transport => "transport"
    case Entertainment => "entertainment"
    case Bills => "bills"
    case Shopping => "shopping"
    case Health => "health"
    case Travel => "travel"
    case Education => "education"
    case OtherCategory => "other"
  }

  /** Reads a key back; None for a string that names no category. */
  function ParseKey(s: string): (r: Option<Category>)
    ensures r.Some? ==> Key(r.value) == s
    ensures r.None? ==> forall c: Category :: Key(c) != s
  {
    if s == "food" then Some(Food)
    else if s == "transport" then Some(Transport)
    else if s == "entertainment" then Some(Entertainment)
    else if s == "bills" then Some(Bills)
    else if s == "shopping" then Some(Shopping)
    else if s == "health" then Some(Health)
    else if s == "travel" then Some(Travel)
    else if s == "education" then Some(Education)
    else if s == "other" then Some(OtherCategory)
    else None
  }

  /** Parsing a category's key gives the category back. */
  lemma ParseKeyRoundTrip(c: Category)
    ensures ParseKey(Key(c)) == Some(c)
  {
  }

  /** The hex colour of a category. */
  function Color(c: Category): string
  {
    match c
    case Food => "#14b8a6"
    case Transport => "#3b82f6"
    case Entertainment => "#a855f7"
    case Bills => "#f59e0b"
    case Shopping => "#ec4899"
    case Health => "#10b981"
    case Travel => "#06b6d4"
    case Education => "#8b5cf6"
    case OtherCategory => "#6b7280"
  }

  predicate IsHexDigit(ch: char)
  {
    '0' <= ch <= '9' || 'a' <= ch <= 'f'
  }

  /** A CSS colour `#rrggbb`. */
  predicate IsHexColor(s: string)
  {
    |s| == 7 && s[0] == '#' && forall i :: 1 <= i < 7 ==> IsHexDigit(s[i])
  }

  /** The icon (an emoji) of a category. */
  function Icon(c: Category): string
  {
    match c
    case Food => "\U{1F37D}\U{FE0F}"
    case Transport => "\U{1F697}"
    case Entertainment => "\U{1F3AC}"
    case Bills => "\U{1F4A1}"
    case Shopping => "\U{1F6CD}\U{FE0F}"
    case Health => "\U{2695}\U{FE0F}"
    case Travel => "\U{2708}\U{FE0F}"
    case Education => "\U{1F4DA}"
    case OtherCategory => "\U{1F4E6}"
  }

  /** `getCategoryColor` on a key: the category's colour, or `other`'s. */
  function ColorOfKey(key: string): (r: string)
    ensures IsHexColor(r)
    ensures ParseKey(key).Some? ==> r == Color(ParseKey(key).value)
    ensures ParseKey(key).None? ==> r == Color(OtherCategory)
  {
    match ParseKey(key)
    case Some(c) => Color(c)
    case None => Color(OtherCategory)
  }

  /** `getCategoryIcon` on a key: the category's icon, or `other`'s. */
  function IconOfKey(key: string): (r: string)
    ensures r != []
    ensures ParseKey(key).Some? ==> r == Icon(ParseKey(key).value)
    ensures ParseKey(key).None? ==> r == Icon(OtherCategory)
  {
    match ParseKey(key)
    case Some(c) => Icon(c)
    case None => Icon(OtherCategory)
  }

  /** A category's key finds the category's own colour and icon. */
  lemma KeyFindsOwnEntry(c: Category)
    ensures ColorOfKey(Key(c)) == Color(c) && IconOfKey(Key(c)) == Icon(c)
  {
    ParseKeyRoundTrip(c);
  }

  /** A chart label: the key with its first letter upper-cased. */
  function Label(c: Category): (r: string)
    ensures |r| == |Key(c)| && r[1..] == Key(c)[1..]
    ensures 'A' <= r[0] <= 'Z' && r[0] as int == Key(c)[0] as int - 32
  {
    var k := Key(c);
    [(k[0] as int - 32) as char] + k[1..]
  }

  /** No two categories share a label. */
  lemma LabelInjective(c: Category, d: Category)
    requires Label(c) == Label(d)
    ensures c == d
  {
    var k, l := Key(c), Key(d);
    assert k[0] as int == Label(c)[0] as int + 32 == l[0] as int;
    SameHeadAndTail(k, l, Label(c)[1..]);
    ParseKeyRoundTrip(c);
    ParseKeyRoundTrip(d);
  }

  lemma SameHeadAndTail(a: string, b: string, tail: string)
    requires a != [] && b != [] && a[0] == b[0] && a[1..] == tail && b[1..] == tail
    ensures a == b
  {
    assert a == [a[0]] + a[1..];
    assert b == [b[0]] + b[1..];
  }
}
