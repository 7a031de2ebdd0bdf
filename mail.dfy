/**
 * The mail-client fallback: the `mailto:` URI `openMailClient` navigates to.
 * It has the shape `mailto:<to>?subject=<enc>&body=<enc>` of RFC 6068 section 2,
 * with both header values percent-encoded by `encodeURIComponent`.
 */
module Mail {
  import opened Wrappers
  import opened Text
  import opened Uri

  /** The fixed recipient of every contact message. */
  const Recipient: string := "Lindelanimakhoba92@gmail.com"
  /** The subject is this text followed by the sender's name. */
  const SubjectPrefix: string := "Portfolio contact from "

  /** The metadata record the submit handler builds: ISO date, user agent and page URL. */
  datatype Metadata = Metadata(date: string, userAgent: string, page: string)

  /** The eight lines of the message body, in their fixed order. */
  function BodyLines(name: string, email: string, message: string, meta: Metadata): (lines: seq<string>)
    ensures |lines| == 8 && lines[5] == "" && lines[6] == "Message:" && lines[7] == message
  {
    [ "Full name: " + name,
      "Email: " + email,
      "Date: " + meta.date,
      "Page: " + meta.page,
      "User-Agent: " + meta.userAgent,
      "",
      "Message:",
      message ]
  }

  /** The body text: the lines joined by line feeds. */
  function Body(name: string, email: string, message: string, meta: Metadata): string {
    Join(BodyLines(name, email, message, meta), "\n")
  }

  /** The URI `openMailClient(name, email, message, metadata)` assigns to `window.location.href`. */
  function MailtoUri(name: string, email: string, message: string, meta: Metadata): (uri: string)
    ensures |uri| > 7 && uri[..7] == "mailto:"
  {
    "mailto:" + Recipient + "?subject=" + EncodeURIComponent(SubjectPrefix + name)
      + "&body=" + EncodeURIComponent(Body(name, email, message, meta))
  }

  /** The three parts of a `mailto:` URI a mail client reads. */
  datatype Mailto = Mailto(to: string, subject: string, body: string)

  /**
   * How a mail client reads `mailto:<to>?subject=<s>&body=<b>`: the address up
   * to the first `?`, the subject up to the first `&`, and the body after
   * `body=`, both header values percent-decoded.
   */
  function ParseMailto(uri: string): Option<Mailto>
  {
    if |uri| < 7 || uri[..7] != "mailto:" then None
    else match SplitAtFirst(uri[7..], '?')
      case None => None
      case Some((to, query)) => ParseQuery(to, query)
  }

  /** The `subject=<s>&body=<b>` part of a `mailto:` URI addressed to `to`. */
  function ParseQuery(to: string, query: string): Option<Mailto>
  {
    if |query| < 8 || query[..8] != "subject=" then None
    else match SplitAtFirst(query[8..], '&')
      case None => None
      case Some((subject, rest)) =>
        if |rest| < 5 || rest[..5] != "body=" then None
        else match (PercentDecode(subject), PercentDecode(rest[5..]))
          case (Some(s), Some(b)) => Some(Mailto(to, s, b))
          case _ => None
  }

  /**
   * A URI of the shape the script builds is read back into its address and its
   * two decoded header values, provided the address holds no `?` and the
   * encoded subject no `&`.
   */
  lemma ParseMailtoShape(to: string, subject: string, body: string)
    requires '?' !in to && '&' !in subject
    ensures ParseMailto("mailto:" + to + "?subject=" + subject + "&body=" + body)
            == match (PercentDecode(subject), PercentDecode(body))
               case (Some(s), Some(b)) => Some(Mailto(to, s, b))
               case _ => None
  {
    var query := "subject=" + subject + "&body=" + body;
    var uri := "mailto:" + to + "?subject=" + subject + "&body=" + body;
    assert uri == "mailto:" + (to + ['?'] + query);
    assert uri[..7] == "mailto:" && uri[7..] == to + ['?'] + query;
    SplitAtFirstJoined(to, '?', query);
    ParseQueryShape(to, subject, body);
  }

  /** The query part of such a URI is read back into the two decoded values. */
  lemma ParseQueryShape(to: string, subject: string, body: string)
    requires '&' !in subject
    ensures ParseQuery(to, "subject=" + subject + "&body=" + body)
            == match (PercentDecode(subject), PercentDecode(body))
               case (Some(s), Some(b)) => Some(Mailto(to, s, b))
               case _ => None
  {
    var rest := "body=" + body;
    var query := "subject=" + subject + "&body=" + body;
    assert query == "subject=" + (subject + ['&'] + rest);
    assert query[..8] == "subject=" && query[8..] == subject + ['&'] + rest;
    SplitAtFirstJoined(subject, '&', rest);
    assert rest[..5] == "body=" && rest[5..] == body;
  }

  /**
   * The mail client receives exactly what the script meant to send: the fixed
   * recipient, the subject `Portfolio contact from <name>`, and the body text.
   */
  lemma ParseMailtoUri(name: string, email: string, message: string, meta: Metadata)
    ensures ParseMailto(MailtoUri(name, email, message, meta))
            == Some(Mailto(Recipient, SubjectPrefix + name, Body(name, email, message, meta)))
  {
    var subject, body := SubjectPrefix + name, Body(name, email, message, meta);
    var e1 := EncodeURIComponent(subject);
    assert '?' !in Recipient;
    assert '&' !in e1;
    ParseMailtoShape(Recipient, e1, EncodeURIComponent(body));
    DecodeEncode(subject);
    DecodeEncode(body);
  }

  /**
   * Splitting the body at line feeds gives back the seven header lines and then
   * the lines of the message, when the name, email and metadata are single lines.
   */
  lemma BodyLinesBack(name: string, email: string, message: string, meta: Metadata)
    requires '\n' !in name && '\n' !in email
    requires '\n' !in meta.date && '\n' !in meta.page && '\n' !in meta.userAgent
    ensures Split(Body(name, email, message, meta), '\n')
            == BodyLines(name, email, message, meta)[..7] + Split(message, '\n')
  {
    var lines := BodyLines(name, email, message, meta);
    SeparatorFreeAll(lines[..7], '\n');
    assert lines == lines[..7] + [lines[7]];
    SplitJoin(lines[..7], lines[7], '\n');
  }

  /** With a single-line message, the body splits back into exactly the eight lines. */
  lemma BodyRoundTrip(name: string, email: string, message: string, meta: Metadata)
    requires '\n' !in name && '\n' !in email && '\n' !in message
    requires '\n' !in meta.date && '\n' !in meta.page && '\n' !in meta.userAgent
    ensures Split(Body(name, email, message, meta), '\n') == BodyLines(name, email, message, meta)
  {
    BodyLinesBack(name, email, message, meta);
    SplitWithout(message, '\n');
    var lines := BodyLines(name, email, message, meta);
    assert lines == lines[..7] + [message];
  }
}
