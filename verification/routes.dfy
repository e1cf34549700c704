/**
 * The API paths the services request. An identifier is always escaped with
 * `url.PathEscape`, so it travels as exactly one path segment and the server
 * recovers it by unescaping that segment.
 */
module Routes {
  import opened Wrappers
  import opened GoStrings
  import opened Url

  const KeyCardsPath: Bytes := Ascii("/v1/key-cards")

  /** `/v1/key-cards/{id}`. */
  function CardPath(id: Bytes): Bytes {
    KeyCardsPath + Ascii("/") + PathEscape(id)
  }

  /** `/v1/key-cards/{id}/{action}`. */
  function ActionPath(id: Bytes, action: Bytes): Bytes {
    CardPath(id) + Ascii("/") + action
  }

  const TemplatesPath: Bytes := Ascii("/v1/console/card-templates")

  /** `/v1/console/card-templates/{id}`. */
  function TemplatePath(id: Bytes): Bytes {
    TemplatesPath + Ascii("/") + PathEscape(id)
  }

  /** `/v1/console/card-templates/{id}/logs`, before any query. */
  function LogsPath(id: Bytes): Bytes {
    TemplatePath(id) + Ascii("/") + Ascii("logs")
  }

  lemma KeyCardsSegments()
    ensures Segments(KeyCardsPath) == [[], Ascii("v1"), Ascii("key-cards")]
  {
    KeyCardsLiteralSegments();
  }

  lemma KeyCardsLiteralSegments()
    ensures Segments(Ascii("/v1/key-cards")) == [[], Ascii("v1"), Ascii("key-cards")]
  {
    var v1, kc := Ascii("v1"), Ascii("key-cards");
    assert Ascii("/v1/key-cards") == ['/' as int] + v1 + ['/' as int] + kc;
    TwoSegments(v1, kc);
  }

  lemma TemplatesSegments()
    ensures Segments(TemplatesPath) == [[], Ascii("v1"), Ascii("console"), Ascii("card-templates")]
  {
    TemplatesLiteralSegments();
  }

  lemma TemplatesLiteralSegments()
    ensures Segments(Ascii("/v1/console/card-templates")) == [[], Ascii("v1"), Ascii("console"), Ascii("card-templates")]
  {
    var v1, co, ct := Ascii("v1"), Ascii("console"), Ascii("card-templates");
    TemplatesLiteralPieces();
    assert NoSlash(v1) && NoSlash(co) && NoSlash(ct);
    ThreeSegments(v1, co, ct);
  }

  lemma TemplatesLiteralPieces()
    ensures Ascii("/v1/console/card-templates")
         == ['/' as int] + Ascii("v1") + ['/' as int] + Ascii("console") + ['/' as int] + Ascii("card-templates")
  {
  }

  /** `/a/b` splits into an empty segment and `a`, `b`. */
  lemma TwoSegments(a: Bytes, b: Bytes)
    requires NoSlash(a) && NoSlash(b)
    ensures Segments(['/' as int] + a + ['/' as int] + b) == [[], a, b]
  {
    var s := ['/' as int] + a + ['/' as int] + b;
    assert s == [] + ['/' as int] + (a + ['/' as int] + b);
    SegmentsAround([], a + ['/' as int] + b);
    SegmentsAround(a, b);
    SegmentsOfNoSlash(a);
    SegmentsOfNoSlash(b);
  }

  /** `/a/b/c` splits into an empty segment and `a`, `b`, `c`. */
  lemma ThreeSegments(a: Bytes, b: Bytes, c: Bytes)
    requires NoSlash(a) && NoSlash(b) && NoSlash(c)
    ensures Segments(['/' as int] + a + ['/' as int] + b + ['/' as int] + c) == [[], a, b, c]
  {
    var s := ['/' as int] + a + ['/' as int] + b + ['/' as int] + c;
    assert s == [] + ['/' as int] + (a + ['/' as int] + (b + ['/' as int] + c));
    SegmentsAround([], a + ['/' as int] + (b + ['/' as int] + c));
    SegmentsAround(a, b + ['/' as int] + c);
    SegmentsAround(b, c);
    SegmentsOfNoSlash(a);
    SegmentsOfNoSlash(b);
    SegmentsOfNoSlash(c);
  }

  /** Appending `/` and a slash-free piece to a path adds exactly that piece as its last segment. */
  lemma AddSegment(path: Bytes, piece: Bytes)
    requires NoSlash(piece)
    ensures Segments(path + Ascii("/") + piece) == Segments(path) + [piece]
  {
    assert Ascii("/") == ['/' as int];
    SegmentsAround(path, piece);
    SegmentsOfNoSlash(piece);
  }

  /**
   * A card path is the collection's segments plus one segment that
   * unescapes back to the id; an action path adds the action as one more.
   */
  lemma CardPathSegments(id: Bytes, action: Bytes)
    requires NoSlash(action)
    ensures Segments(CardPath(id)) == [[], Ascii("v1"), Ascii("key-cards"), PathEscape(id)]
    ensures Segments(ActionPath(id, action)) == [[], Ascii("v1"), Ascii("key-cards"), PathEscape(id), action]
    ensures PathUnescape(Segments(CardPath(id))[3]) == Some(id)
  {
    KeyCardsSegments();
    AddSegment(KeyCardsPath, PathEscape(id));
    AddSegment(CardPath(id), action);
    UnescapeEscape(id, PathSegment);
  }

  /**
   * A template path is the collection's segments plus one segment that
   * unescapes back to the id; the log path adds `logs`.
   */
  lemma TemplatePathSegments(id: Bytes)
    ensures Segments(TemplatePath(id)) == [[], Ascii("v1"), Ascii("console"), Ascii("card-templates"), PathEscape(id)]
    ensures Segments(LogsPath(id)) == [[], Ascii("v1"), Ascii("console"), Ascii("card-templates"), PathEscape(id), Ascii("logs")]
    ensures PathUnescape(Segments(TemplatePath(id))[4]) == Some(id)
  {
    TemplateIdSegment(id);
    assert NoSlash(Ascii("logs"));
    AddSegment(TemplatePath(id), Ascii("logs"));
  }

  lemma TemplateIdSegment(id: Bytes)
    ensures Segments(TemplatePath(id)) == [[], Ascii("v1"), Ascii("console"), Ascii("card-templates"), PathEscape(id)]
    ensures PathUnescape(Segments(TemplatePath(id))[4]) == Some(id)
  {
    TemplatesSegments();
    AddSegment(TemplatesPath, PathEscape(id));
    UnescapeEscape(id, PathSegment);
  }
}
