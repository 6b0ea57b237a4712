/** One blog entry (src/pages/BlogPostDetail.js): the entry and its comments
    are read by id, the body interleaves paragraphs with the entry's images,
    and a visitor's comment is checked, inserted and put first. */
module BlogPostDetailModel {
  import opened Common
  import opened Records

  const INVALID_POST_ID: string := "ID de post inválido."
  const POST_NOT_FOUND: string := "Post no encontrado."
  const LOAD_POST_PREFIX: string := "Error al cargar el post: "
  const COMMENT_MISSING_FIELDS: string := "Por favor, completa tu nombre y comentario."
  const COMMENT_SENT: string := "¡Comentario enviado con éxito!"
  const COMMENT_FAILED: string := "Hubo un error al enviar tu comentario. Inténtalo de nuevo."

  // ---------------------------------------------------------------------------
  // The body
  // ---------------------------------------------------------------------------

  /** What the article shows, top to bottom. */
  datatype Block = Paragraph(text: string) | Image(url: string) | Gallery(urls: seq<string>) | Placeholder

  /** The hero image: `image_urls[0]`, when there is one and it is not
      empty. */
  function Hero(imageUrls: Option<seq<string>>): (r: Option<string>)
    ensures r.Some? <==> imageUrls.Some? && |imageUrls.value| > 0 && imageUrls.value[0] != ""
    ensures r.Some? ==> r.value == imageUrls.value[0]
  {
    if imageUrls.Some? && |imageUrls.value| > 0 && imageUrls.value[0] != "" then Some(imageUrls.value[0]) else None
  }

  /** The images after the hero: `image_urls.slice(1)`. */
  function Rest(imageUrls: Option<seq<string>>): (r: seq<string>)
  {
    if imageUrls.Some? && |imageUrls.value| > 0 then imageUrls.value[1..] else []
  }

  /** Several paragraphs: each is followed by the image after the hero with
      its own index, if there is one. */
  function Interleave(paragraphs: seq<string>, images: seq<string>): seq<Block>
  {
    if |paragraphs| == 0 then []
    else if |images| == 0 then [Paragraph(paragraphs[0])] + Interleave(paragraphs[1..], [])
    else [Paragraph(paragraphs[0]), Image(images[0])] + Interleave(paragraphs[1..], images[1..])
  }

  /** The article body for `info` and `image_urls`: the placeholder when
      there is no paragraph; one paragraph and a gallery of every further
      image; or paragraphs interleaved with the further images. */
  function Body(info: Option<seq<string>>, imageUrls: Option<seq<string>>): (r: seq<Block>)
    ensures |r| > 0
    ensures r[0] == Placeholder <==> info.None? || |info.value| == 0
    ensures r[0] == Placeholder ==> r == [Placeholder]
  {
    if info.None? || |info.value| == 0 then [Placeholder]
    else if |info.value| == 1 then
      [Paragraph(info.value[0])] + (if imageUrls.Some? && |imageUrls.value| > 1 then [Gallery(Rest(imageUrls))] else [])
    else Interleave(info.value, Rest(imageUrls))
  }

  function BlockText(b: Block): seq<string>
  {
    if b.Paragraph? then [b.text] else []
  }

  function BlockImages(b: Block): seq<string>
  {
    match b
    case Image(url) => [url]
    case Gallery(urls) => urls
    case _ => []
  }

  /** Every paragraph the body shows, in order. */
  function ParagraphsOf(blocks: seq<Block>): seq<string>
  {
    if |blocks| == 0 then [] else BlockText(blocks[0]) + ParagraphsOf(blocks[1..])
  }

  /** Every image the body shows, in order, galleries included. */
  function ImagesOf(blocks: seq<Block>): seq<string>
  {
    if |blocks| == 0 then [] else BlockImages(blocks[0]) + ImagesOf(blocks[1..])
  }

  lemma {:induction false} ParagraphsOfConcat(a: seq<Block>, b: seq<Block>)
    ensures ParagraphsOf(a + b) == ParagraphsOf(a) + ParagraphsOf(b)
  {
    if |a| > 0 {
      assert (a + b)[0] == a[0] && (a + b)[1..] == a[1..] + b;
      ParagraphsOfConcat(a[1..], b);
      assert ParagraphsOf(a + b) == BlockText(a[0]) + (ParagraphsOf(a[1..]) + ParagraphsOf(b));
    } else {
      assert a + b == b;
    }
  }

  lemma {:induction false} ImagesOfConcat(a: seq<Block>, b: seq<Block>)
    ensures ImagesOf(a + b) == ImagesOf(a) + ImagesOf(b)
  {
    if |a| > 0 {
      assert (a + b)[0] == a[0] && (a + b)[1..] == a[1..] + b;
      ImagesOfConcat(a[1..], b);
      assert ImagesOf(a + b) == BlockImages(a[0]) + (ImagesOf(a[1..]) + ImagesOf(b));
    } else {
      assert a + b == b;
    }
  }

  /** Interleaving shows every paragraph in order, and the images only as
      far as there are paragraphs for them. */
  lemma InterleaveContents(paragraphs: seq<string>, images: seq<string>)
    ensures ParagraphsOf(Interleave(paragraphs, images)) == paragraphs
    ensures ImagesOf(Interleave(paragraphs, images)) ==
      images[..if |images| <= |paragraphs| then |images| else |paragraphs|]
  {
    InterleaveParagraphs(paragraphs, images);
    InterleaveImages(paragraphs, images);
    assert Prefix(images, |paragraphs|) == images[..if |images| <= |paragraphs| then |images| else |paragraphs|];
  }

  /** The blocks Interleave puts first: the first paragraph and, if there is
      one, the first image. */
  function InterleaveHead(paragraph: string, images: seq<string>): seq<Block>
  {
    if |images| == 0 then [Paragraph(paragraph)] else [Paragraph(paragraph), Image(images[0])]
  }

  lemma InterleaveStep(paragraphs: seq<string>, images: seq<string>)
    requires |paragraphs| > 0
    ensures Interleave(paragraphs, images) ==
      InterleaveHead(paragraphs[0], images) + Interleave(paragraphs[1..], if |images| == 0 then [] else images[1..])
  {
  }

  lemma InterleaveHeadContents(paragraph: string, images: seq<string>)
    ensures ParagraphsOf(InterleaveHead(paragraph, images)) == [paragraph]
    ensures ImagesOf(InterleaveHead(paragraph, images)) == if |images| == 0 then [] else [images[0]]
  {
    var head := InterleaveHead(paragraph, images);
    if |images| > 0 {
      var second := [Image(images[0])];
      assert head[1..] == second && second[1..] == [];
      assert ParagraphsOf(second) == [];
      assert ImagesOf(second) == [images[0]];
    } else {
      assert head[1..] == [];
    }
  }

  lemma {:induction false} InterleaveParagraphs(paragraphs: seq<string>, images: seq<string>)
    ensures ParagraphsOf(Interleave(paragraphs, images)) == paragraphs
  {
    if |paragraphs| > 0 {
      var rest := if |images| == 0 then [] else images[1..];
      InterleaveStep(paragraphs, images);
      InterleaveParagraphs(paragraphs[1..], rest);
      ParagraphsOfConcat(InterleaveHead(paragraphs[0], images), Interleave(paragraphs[1..], rest));
      InterleaveHeadContents(paragraphs[0], images);
      assert [paragraphs[0]] + paragraphs[1..] == paragraphs;
    }
  }

  /** The first n entries of s, or all of them when there are fewer. */
  function Prefix(s: seq<string>, n: nat): seq<string>
  {
    if |s| <= n then s else s[..n]
  }

  lemma PrefixCons(s: seq<string>, n: nat)
    requires |s| > 0 && n > 0
    ensures Prefix(s, n) == [s[0]] + Prefix(s[1..], n - 1)
  {
  }

  lemma {:induction false} InterleaveImages(paragraphs: seq<string>, images: seq<string>)
    ensures ImagesOf(Interleave(paragraphs, images)) == Prefix(images, |paragraphs|)
  {
    if |paragraphs| > 0 {
      var rest := if |images| == 0 then [] else images[1..];
      InterleaveStep(paragraphs, images);
      InterleaveImages(paragraphs[1..], rest);
      ImagesOfConcat(InterleaveHead(paragraphs[0], images), Interleave(paragraphs[1..], rest));
      InterleaveHeadContents(paragraphs[0], images);
      if |images| > 0 {
        PrefixCons(images, |paragraphs|);
      }
    }
  }

  /** What the article shows: all paragraphs, in order; with one paragraph
      every image after the hero; with several only the images after the
      hero that have a paragraph (index 1..|info|), so further ones are not
      shown. */
  lemma BodyShows(info: Option<seq<string>>, imageUrls: Option<seq<string>>)
    ensures info.None? || |info.value| == 0 ==> Body(info, imageUrls) == [Placeholder]
    ensures info.Some? && |info.value| > 0 ==> ParagraphsOf(Body(info, imageUrls)) == info.value
    ensures info.Some? && |info.value| == 1 ==> ImagesOf(Body(info, imageUrls)) == Rest(imageUrls)
    ensures info.Some? && |info.value| > 1 ==>
      var rest := Rest(imageUrls);
      ImagesOf(Body(info, imageUrls)) == rest[..if |rest| <= |info.value| then |rest| else |info.value|]
  {
    if info.Some? && |info.value| == 1 {
      var p := [Paragraph(info.value[0])];
      var g := if imageUrls.Some? && |imageUrls.value| > 1 then [Gallery(Rest(imageUrls))] else [];
      ParagraphsOfConcat(p, g);
      ImagesOfConcat(p, g);
      assert ParagraphsOf(p) == info.value;
      assert ImagesOf(p) == [];
      if |g| > 0 {
        assert g[1..] == [];
      }
    } else if info.Some? && |info.value| > 1 {
      InterleaveContents(info.value, Rest(imageUrls));
    }
  }

  // ---------------------------------------------------------------------------
  // Comments
  // ---------------------------------------------------------------------------

  /** The row a visitor's comment inserts into `blog_comments`. */
  datatype NewComment = NewComment(blogId: string, name: string, comment: string)

  /** The comment handleSubmitComment sends: none when the name or the text is
      blank, otherwise both trimmed. */
  function CommentDraft(postId: string, name: string, text: string): (c: Option<NewComment>)
    ensures c.None? <==> AllWhitespace(name) || AllWhitespace(text)
    ensures c.Some? ==> c.value == NewComment(postId, Trim(name), Trim(text))
    ensures c.Some? ==> c.value.name != "" && c.value.comment != ""
    ensures c.Some? ==> Trim(c.value.name) == c.value.name && Trim(c.value.comment) == c.value.comment
  {
    TrimEmptyIff(name);
    TrimEmptyIff(text);
    TrimIdempotent(name);
    TrimIdempotent(text);
    if Trim(name) == "" || Trim(text) == "" then None else Some(NewComment(postId, Trim(name), Trim(text)))
  }

  /** The answer to `.insert([...]).select().single()`: the stored row
      (possibly null), or the error. */
  datatype CommentInsertReply = Inserted(row: Option<CommentRow>) | InsertFailed(message: string)

  /** The answer to the read of the entry by id. */
  datatype PostReply = PostFound(row: Option<BlogRow>) | PostFailed(message: string)

  /** The answer to the read of the entry's comments, newest first. */
  datatype CommentsReply = CommentsFetched(data: Option<seq<CommentRow>>) | CommentsFailed(message: string)

  /** The line under the comment form. */
  datatype SubmissionStatus = NoStatus | StatusError(message: string) | StatusSuccess(message: string)

  class PostDetail {
    var post: Option<BlogRow>
    var comments: seq<CommentRow>
    var error: string
    var commenterName: string
    var commentText: string
    var status: SubmissionStatus

    constructor()
      ensures post.None? && comments == [] && error == ""
      ensures commenterName == "" && commentText == "" && status == NoStatus
    {
      post, comments, error := None, [], "";
      commenterName, commentText, status := "", "", NoStatus;
    }

    /** The effect on `postId`: with no id the error is set and nothing is
        read; otherwise fetchPostAndComments runs to its end with the two
        answers. A failed comment read only empties the list. */
    method Load(postId: string, postReply: PostReply, commentsReply: CommentsReply)
      modifies this
      ensures postId == "" ==>
        error == INVALID_POST_ID && post == old(post) && comments == old(comments) && status == old(status)
      ensures postId != "" ==> status == NoStatus
      ensures postId != "" && postReply.PostFailed? ==>
        error == LOAD_POST_PREFIX + postReply.message && post.None? && comments == []
      ensures postId != "" && postReply == PostFound(None) ==>
        error == POST_NOT_FOUND && post.None? && comments == []
      ensures postId != "" && postReply.PostFound? && postReply.row.Some? ==>
        error == "" && post == postReply.row &&
        comments == (if commentsReply.CommentsFetched? then OrNone(commentsReply.data) else [])
      ensures commenterName == old(commenterName) && commentText == old(commentText)
    {
      if postId == "" {
        error := INVALID_POST_ID;
        return;
      }
      error, status := "", NoStatus;
      match postReply {
        case PostFailed(message) =>
          error, post, comments := LOAD_POST_PREFIX + message, None, [];
        case PostFound(row) =>
          if row.None? {
            error, post, comments := POST_NOT_FOUND, None, [];
          } else {
            post := row;
            comments := if commentsReply.CommentsFetched? then OrNone(commentsReply.data) else [];
          }
      }
    }

    /** The inputs' onChange. */
    method SetName(value: string)
      modifies this
      ensures commenterName == value
      ensures commentText == old(commentText) && comments == old(comments) && status == old(status)
      ensures post == old(post) && error == old(error)
    {
      commenterName := value;
    }

    method SetText(value: string)
      modifies this
      ensures commentText == value
      ensures commenterName == old(commenterName) && comments == old(comments) && status == old(status)
      ensures post == old(post) && error == old(error)
    {
      commentText := value;
    }

    /** handleSubmitComment for entry `postId`, with the table's answer to the
        insert. Returns the row sent, if one was. */
    method SubmitComment(postId: string, insert: CommentInsertReply) returns (sent: Option<NewComment>)
      modifies this
      // blank name or text: no insert, the form says so
      ensures sent == CommentDraft(postId, old(commenterName), old(commentText))
      ensures sent.None? ==>
        status == StatusError(COMMENT_MISSING_FIELDS) && comments == old(comments) &&
        commenterName == old(commenterName) && commentText == old(commentText)
      // a stored row goes first and the inputs are cleared
      ensures sent.Some? && insert.Inserted? && insert.row.Some? ==>
        status == StatusSuccess(COMMENT_SENT) && comments == [insert.row.value] + old(comments) &&
        commenterName == "" && commentText == ""
      // an error, or no row back: the list and the inputs stay as they were
      ensures sent.Some? && !(insert.Inserted? && insert.row.Some?) ==>
        status == StatusError(COMMENT_FAILED) && comments == old(comments) &&
        commenterName == old(commenterName) && commentText == old(commentText)
      ensures post == old(post) && error == old(error)
    {
      sent := CommentDraft(postId, commenterName, commentText);
      status := NoStatus;
      if sent.None? {
        status := StatusError(COMMENT_MISSING_FIELDS);
        return;
      }
      if insert.Inserted? && insert.row.Some? {
        status := StatusSuccess(COMMENT_SENT);
        commenterName, commentText := "", "";
        comments := [insert.row.value] + comments;
      } else {
        status := StatusError(COMMENT_FAILED);
      }
    }

    /** The four-second timer after a success clears the status line. */
    method StatusTimeout()
      modifies this
      ensures status == NoStatus
      ensures comments == old(comments) && commenterName == old(commenterName) && commentText == old(commentText)
      ensures post == old(post) && error == old(error)
    {
      status := NoStatus;
    }
  }
}
