/** The database server's check of a dotted field path, such as the key of a
    `$sort` stage: the path is split at each `.`, and every piece is checked
    in turn. */
module FieldPaths {
  import opened Common
  import opened ApiErrors
  import opened JsStrings

  /** The check of one piece: it may not be empty, may not start with `$`
      unless it is one of the DBRef names `$id`, `$ref` and `$db`, and may
      not hold a NUL character. */
  function PieceError(piece: string): (r: Option<JsError>)
    ensures r.Some? ==> r.value.MongoError? && r.value.code in {EmptyFieldName, DollarFieldName, NulFieldName}
    ensures r.None? <==> piece != "" && (piece[0] == '$' ==> piece in {"$id", "$ref", "$db"}) && '\0' !in piece
  {
    if piece == "" then Some(MongoError(EmptyFieldName, "FieldPath field names may not be empty strings."))
    else if piece[0] == '$' && piece !in {"$id", "$ref", "$db"} then
      Some(MongoError(DollarFieldName, "FieldPath field names may not start with '$'."))
    else if '\0' in piece then Some(MongoError(NulFieldName, "FieldPath field names may not contain '\\0'."))
    else None
  }

  /** The error for the first bad piece, if any. */
  function PiecesError(pieces: seq<string>): (r: Option<JsError>)
    ensures r.None? <==> forall k :: 0 <= k < |pieces| ==> PieceError(pieces[k]).None?
    ensures r.Some? ==> r.value.MongoError? && r.value.code in {EmptyFieldName, DollarFieldName, NulFieldName}
  {
    if pieces == [] then None
    else if PieceError(pieces[0]).Some? then PieceError(pieces[0])
    else PiecesError(pieces[1..])
  }

  /** The server's refusal of a field path, if it refuses it. */
  function FieldPathError(path: string): Option<JsError>
  {
    PiecesError(SplitOn(path, '.'))
  }

  /** A path without dots is checked as one piece. */
  lemma OnePiece(p: string)
    requires '.' !in p
    ensures FieldPathError(p) == PieceError(p)
  {
    SplitNoSep(p, '.');
  }

  /** A path with one dot is checked as its two pieces, left first. */
  lemma TwoPieces(p: string, q: string)
    requires '.' !in p && '.' !in q
    ensures FieldPathError(p + "." + q) == if PieceError(p).Some? then PieceError(p) else PieceError(q)
  {
    assert p + "." + q == p + ['.'] + q;
    SplitFirst(p, '.', q);
    SplitNoSep(q, '.');
    var pieces := [p, q];
    assert SplitOn(p + "." + q, '.') == pieces;
    assert pieces[1..] == [q];
    assert [q][1..] == [];
    assert PiecesError([q]) == PieceError(q);
    assert FieldPathError(p + "." + q) == PiecesError(pieces);
  }

  /** Refused: a piece starting with `$` that is no DBRef name, a trailing
      dot, and two dots in a row. */
  lemma RefusedPaths(p: string, q: string)
    requires '.' !in p && '.' !in q
    ensures p != "" && p[0] == '$' && p !in {"$id", "$ref", "$db"} ==> FieldPathError(p).Some?
    ensures FieldPathError(p + ".").Some?
    ensures FieldPathError(p + ".." + q).Some?
  {
    OnePiece(p);
    TwoPieces(p, "");
    assert p + "." + "" == p + ".";
    var s := p + ".." + q;
    assert s == p + ['.'] + ("" + ['.'] + q);
    SplitFirst(p, '.', "" + ['.'] + q);
    SplitFirst("", '.', q);
    var pieces := SplitOn(s, '.');
    assert pieces == [p, ""] + SplitOn(q, '.');
    assert PieceError(pieces[1]).Some?;
  }
}
