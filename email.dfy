/**
 * The email channel's decisions, without its IMAP and SMTP sessions: the
 * date text of an IMAP search, the subject of a reply, the UID and the
 * message found in a FETCH response, the configuration checks, when a reply
 * may go out and with which headers, which fetched messages become inbound
 * items, and the per-sender memory of the last subject and Message-ID.
 *
 * The mail server is a parameter (`Mailbox`): it answers a search with the
 * FETCH responses of the matching messages and parses a raw message into its
 * headers and body. What `send` hands to SMTP is returned as an
 * `OutgoingEmail`.
 */
module Email {
  import opened Wrappers
  import opened Text
  import Json

  // ---------------------------------------------------------------------------
  // Dates
  // ---------------------------------------------------------------------------

  datatype Date = Date(year: int, month: int, day: int)

  predicate LeapYear(year: int) {
    year % 4 == 0 && (year % 100 != 0 || year % 400 == 0)
  }

  function DaysInMonth(year: int, month: int): int
    requires 1 <= month <= 12
  {
    if month == 2 then (if LeapYear(year) then 29 else 28)
    else if month == 4 || month == 6 || month == 9 || month == 11 then 30
    else 31
  }

  /** The values Python's `datetime.date` admits. */
  predicate ValidDate(d: Date) {
    1 <= d.year <= 9999 && 1 <= d.month <= 12 && 1 <= d.day <= DaysInMonth(d.year, d.month)
  }

  /** Python's `date <= date`: by year, then month, then day. */
  predicate DateLe(a: Date, b: Date) {
    a.year < b.year || (a.year == b.year && (a.month < b.month || (a.month == b.month && a.day <= b.day)))
  }

  /** English month abbreviations, whatever the locale. */
  const ImapMonths: seq<string> :=
    ["Jan", "Feb", "Mar", "Apr", "May", "Jun", "Jul", "Aug", "Sep", "Oct", "Nov", "Dec"]

  /** Every month abbreviation has three letters. */
  lemma MonthAbbreviationLength(m: int)
    requires 1 <= m <= 12
    ensures |ImapMonths[m - 1]| == 3
  {
    assert m == 1 || m == 2 || m == 3 || m == 4 || m == 5 || m == 6
        || m == 7 || m == 8 || m == 9 || m == 10 || m == 11 || m == 12;
  }

  /** `_format_imap_date`: two-digit day, month abbreviation and year, separated by '-'. */
  function FormatImapDate(d: Date): (r: string)
    requires ValidDate(d)
    ensures |r| >= 8 && r[2] == '-' && r[6] == '-'
    ensures r[3..6] == ImapMonths[d.month - 1]
    ensures 1000 <= d.year ==> |r| == 11
  {
    MonthAbbreviationLength(d.month);
    Pad2(d.day) + "-" + ImapMonths[d.month - 1] + "-" + NatToString(d.year)
  }

  /** The month number of an abbreviation, as an IMAP server reads it. */
  function MonthNumber(name: string): (r: Option<int>)
    ensures r.Some? ==> 1 <= r.value <= 12 && ImapMonths[r.value - 1] == name
  {
    if name == "Jan" then Some(1) else if name == "Feb" then Some(2)
    else if name == "Mar" then Some(3) else if name == "Apr" then Some(4)
    else if name == "May" then Some(5) else if name == "Jun" then Some(6)
    else if name == "Jul" then Some(7) else if name == "Aug" then Some(8)
    else if name == "Sep" then Some(9) else if name == "Oct" then Some(10)
    else if name == "Nov" then Some(11) else if name == "Dec" then Some(12)
    else None
  }

  predicate AllDigits(s: string) {
    forall i :: 0 <= i < |s| ==> IsDigit(s[i])
  }

  /**
   * Reads a date in the text form of section 9 of RFC 3501 ("06-Feb-2026"):
   * the reference against which the formatter is checked.
   */
  function ParseImapDate(s: string): (r: Option<Date>)
  {
    if |s| >= 8 && s[2] == '-' && s[6] == '-' && AllDigits(s[..2]) && AllDigits(s[7..])
       && MonthNumber(s[3..6]).Some?
    then Some(Date(ParseNat(s[7..]), MonthNumber(s[3..6]).value, ParseNat(s[..2])))
    else None
  }

  /** Every valid date is read back from its IMAP text unchanged. */
  lemma FormatParseRoundTrip(d: Date)
    requires ValidDate(d)
    ensures ParseImapDate(FormatImapDate(d)) == Some(d)
  {
    var s := FormatImapDate(d);
    assert ParseNat(s[..2]) == d.day && AllDigits(s[..2]) by {
      assert s[..2] == Pad2(d.day);
      Pad2Value(d.day);
    }
    assert ParseNat(s[7..]) == d.year && AllDigits(s[7..]) by {
      assert s[7..] == NatToString(d.year);
      ParseNatToString(d.year);
    }
    MonthNumberOfAbbreviation(d.month);
  }

  /** Each abbreviation is read back as its own month. */
  lemma MonthNumberOfAbbreviation(m: int)
    requires 1 <= m <= 12
    ensures MonthNumber(ImapMonths[m - 1]) == Some(m)
  {
    assert m == 1 || m == 2 || m == 3 || m == 4 || m == 5 || m == 6
        || m == 7 || m == 8 || m == 9 || m == 10 || m == 11 || m == 12;
  }

  /** Different dates never share a search text. */
  lemma FormatImapDateInjective(a: Date, b: Date)
    requires ValidDate(a) && ValidDate(b)
    requires FormatImapDate(a) == FormatImapDate(b)
    ensures a == b
  {
    FormatParseRoundTrip(a);
    FormatParseRoundTrip(b);
  }

  // ---------------------------------------------------------------------------
  // Reply subjects
  // ---------------------------------------------------------------------------

  const DefaultSubject := "nanobot reply"
  const DefaultPrefix := "Re: "

  /** `subject.lower().startswith("re:")`, read character by character. */
  predicate IsReplySubject(subject: string) {
    |subject| >= 3 && LowerChar(subject[0]) == 'r' && LowerChar(subject[1]) == 'e' && subject[2] == ':'
  }

  /** The character-wise reading is the one on the lower-cased string. */
  lemma IsReplySubjectIff(subject: string)
    ensures IsReplySubject(subject) <==> "re:" <= Lower(subject)
  {
  }

  /**
   * `_reply_subject`: the stripped subject (or "nanobot reply" when blank),
   * returned as is when it already starts with "re:" in any case, otherwise
   * behind the configured prefix (or "Re: " when that is empty).
   */
  function ReplySubject(baseSubject: string, subjectPrefix: string): string
  {
    var subject := Or(Strip(baseSubject), DefaultSubject);
    if IsReplySubject(subject) then subject
    else Or(subjectPrefix, DefaultPrefix) + subject
  }

  /** With the default prefix every reply subject starts with "re:" and has no surrounding whitespace. */
  lemma ReplySubjectIsReply(baseSubject: string, subjectPrefix: string)
    requires subjectPrefix == "" || subjectPrefix == DefaultPrefix
    ensures var r := ReplySubject(baseSubject, subjectPrefix);
      IsReplySubject(r) && Strip(r) == r
  {
    var t := Or(Strip(baseSubject), DefaultSubject);
    if Strip(baseSubject) == "" {
      PrefixedIsReply(DefaultSubject);
    } else if !IsReplySubject(t) {
      PrefixedIsReply(t);
    } else {
      StripIdempotent(baseSubject);
    }
  }

  /** "Re: " in front of a subject that does not end in whitespace gives a stripped reply subject. */
  lemma PrefixedIsReply(t: string)
    requires t != [] && !IsSpace(t[|t| - 1])
    ensures IsReplySubject(DefaultPrefix + t) && Strip(DefaultPrefix + t) == DefaultPrefix + t
  {
    var r := DefaultPrefix + t;
    assert r[0] == 'R' && r[1] == 'e' && r[2] == ':' && r[|r| - 1] == t[|t| - 1];
    StripOfStripped(r);
  }

  /** With the default prefix, replying to a reply does not stack another prefix. */
  lemma ReplySubjectIdempotent(baseSubject: string, subjectPrefix: string)
    requires subjectPrefix == "" || subjectPrefix == DefaultPrefix
    ensures ReplySubject(ReplySubject(baseSubject, subjectPrefix), subjectPrefix)
         == ReplySubject(baseSubject, subjectPrefix)
  {
    ReplySubjectIsReply(baseSubject, subjectPrefix);
  }

  /**
   * A custom prefix that does not itself start with "re:" is stacked again on
   * every round: replying twice to a plain subject carries the prefix twice.
   */
  lemma CustomPrefixStacks(subject: string, prefix: string)
    requires subject != [] && !IsSpace(subject[0]) && !IsSpace(subject[|subject| - 1])
    requires !IsReplySubject(subject)
    requires |prefix| >= 3 && !IsReplySubject(prefix) && !IsSpace(prefix[0])
    ensures ReplySubject(ReplySubject(subject, prefix), prefix) == prefix + prefix + subject
  {
    PlainSubjectPrefixed(subject, prefix);
    PlainSubjectPrefixed(prefix + subject, prefix);
  }

  /**
   * One round with such a prefix: the subject gets the prefix, and the result
   * is again a plain subject without surrounding whitespace.
   */
  lemma PlainSubjectPrefixed(subject: string, prefix: string)
    requires subject != [] && !IsSpace(subject[0]) && !IsSpace(subject[|subject| - 1])
    requires !IsReplySubject(subject)
    requires |prefix| >= 3 && !IsReplySubject(prefix) && !IsSpace(prefix[0])
    ensures ReplySubject(subject, prefix) == prefix + subject
    ensures var r := prefix + subject;
      !IsSpace(r[0]) && !IsSpace(r[|r| - 1]) && !IsReplySubject(r)
  {
    StripOfStripped(subject);
    var r := prefix + subject;
    assert r[0] == prefix[0] && r[1] == prefix[1] && r[2] == prefix[2];
    assert r[|r| - 1] == subject[|subject| - 1];
  }

  // ---------------------------------------------------------------------------
  // FETCH responses
  // ---------------------------------------------------------------------------

  /** One element of a response tuple: a byte string (held as its text) or anything else. */
  datatype Part = Bytes(data: string) | NotBytes

  /** One element of the list `imaplib` returns for a FETCH: a tuple, or a bare value. */
  datatype FetchItem = Tuple(parts: seq<Part>) | Single(part: Part)

  /** The first index at or after `j` that is not whitespace. */
  function SpacesEnd(s: string, j: int): (r: int)
    requires 0 <= j <= |s|
    ensures j <= r <= |s|
    decreases |s| - j
  {
    if j < |s| && IsSpace(s[j]) then SpacesEnd(s, j + 1) else j
  }

  /** `\s+` is greedy: it takes the whole run of whitespace. */
  lemma {:induction false} SpacesEndMaximal(s: string, j: int)
    requires 0 <= j <= |s|
    ensures forall k :: j <= k < SpacesEnd(s, j) ==> IsSpace(s[k])
    ensures SpacesEnd(s, j) == |s| || !IsSpace(s[SpacesEnd(s, j)])
    decreases |s| - j
  {
    if j < |s| && IsSpace(s[j]) {
      SpacesEndMaximal(s, j + 1);
    }
  }

  /** The first index at or after `j` that is not a digit. */
  function DigitsEnd(s: string, j: int): (r: int)
    requires 0 <= j <= |s|
    ensures j <= r <= |s|
    decreases |s| - j
  {
    if j < |s| && IsDigit(s[j]) then DigitsEnd(s, j + 1) else j
  }

  /** `\d+` is greedy: it takes the whole run of digits. */
  lemma {:induction false} DigitsEndMaximal(s: string, j: int)
    requires 0 <= j <= |s|
    ensures forall k :: j <= k < DigitsEnd(s, j) ==> IsDigit(s[k])
    ensures DigitsEnd(s, j) == |s| || !IsDigit(s[DigitsEnd(s, j)])
    decreases |s| - j
  {
    if j < |s| && IsDigit(s[j]) {
      DigitsEndMaximal(s, j + 1);
    }
  }

  /** The pattern `UID\s+(\d+)` matches at position `i` of `s`. */
  predicate UidMatchAt(s: string, i: int) {
    0 <= i && i + 3 <= |s| && s[i] == 'U' && s[i + 1] == 'I' && s[i + 2] == 'D'
    && var e := SpacesEnd(s, i + 3);
    e > i + 3 && e < |s| && IsDigit(s[e])
  }

  /** The group the pattern captures at a match: the whole run of digits after the whitespace. */
  function UidGroup(s: string, i: int): (r: string)
    requires UidMatchAt(s, i)
    ensures r != "" && AllDigits(r)
  {
    var e := SpacesEnd(s, i + 3);
    DigitsEndMaximal(s, e);
    s[e..DigitsEnd(s, e)]
  }

  /** `i` is the leftmost position from `k` at which the pattern matches. */
  ghost predicate LeftmostUid(s: string, k: int, i: int) {
    k <= i && UidMatchAt(s, i) && forall j :: k <= j < i ==> !UidMatchAt(s, j)
  }

  /** `re.search(r"UID\s+(\d+)", s)` restricted to positions from `k`: the leftmost match's group. */
  function SearchUidFrom(s: string, k: nat): (r: Option<string>)
    ensures r.None? ==> forall i :: k <= i ==> !UidMatchAt(s, i)
    ensures r.Some? ==> exists i :: LeftmostUid(s, k, i) && r.value == UidGroup(s, i)
    decreases |s| - k
  {
    if |s| < k + 3 then
      assert forall i :: k <= i ==> !UidMatchAt(s, i) by {
        forall i | k <= i ensures !UidMatchAt(s, i) { }
      }
      None
    else if UidMatchAt(s, k) then
      assert LeftmostUid(s, k, k);
      Some(UidGroup(s, k))
    else
      var r := SearchUidFrom(s, k + 1);
      assert r.None? ==> forall i :: k <= i ==> !UidMatchAt(s, i) by {
        if r.None? {
          forall i | k <= i ensures !UidMatchAt(s, i) {
            if i > k { assert k + 1 <= i; }
          }
        }
      }
      assert r.Some? ==> exists i :: LeftmostUid(s, k, i) && r.value == UidGroup(s, i) by {
        if r.Some? {
          var i :| LeftmostUid(s, k + 1, i) && r.value == UidGroup(s, i);
          assert LeftmostUid(s, k, i);
        }
      }
      r
  }

  /** The header text of a tuple whose first element is a byte string. */
  function HeadText(item: FetchItem): Option<string> {
    if item.Tuple? && |item.parts| > 0 && item.parts[0].Bytes? then Some(item.parts[0].data) else None
  }

  predicate HasUid(item: FetchItem) {
    HeadText(item).Some? && SearchUidFrom(HeadText(item).value, 0).Some?
  }

  /**
   * `_extract_uid`: the digits after "UID" and whitespace in the first tuple
   * header that has them, or "" when no tuple header does.
   */
  function ExtractUid(fetched: seq<FetchItem>): (r: string)
    ensures r == "" <==> forall i :: 0 <= i < |fetched| ==> !HasUid(fetched[i])
    ensures r != "" ==> AllDigits(r)
                        && exists i :: IsFirst(fetched, HasUid, i)
                                       && r == SearchUidFrom(HeadText(fetched[i]).value, 0).value
  {
    match FirstWhere(fetched, HasUid)
    case None => ""
    case Some(item) =>
      var uid := SearchUidFrom(HeadText(item).value, 0).value;
      assert uid != "" && AllDigits(uid) by {
        var s := HeadText(item).value;
        var i :| LeftmostUid(s, 0, i) && uid == UidGroup(s, i);
      }
      uid
  }

  predicate CarriesMessage(item: FetchItem) {
    item.Tuple? && |item.parts| >= 2 && item.parts[1].Bytes?
  }

  /** `_extract_message_bytes`: the second element of the first tuple whose second element is a byte string. */
  function ExtractMessageBytes(fetched: seq<FetchItem>): (r: Option<string>)
    ensures r.Some? <==> exists i :: 0 <= i < |fetched| && CarriesMessage(fetched[i])
    ensures r.Some? ==> exists i :: IsFirst(fetched, CarriesMessage, i) && r.value == fetched[i].parts[1].data
  {
    match FirstWhere(fetched, CarriesMessage)
    case None => None
    case Some(item) => Some(item.parts[1].data)
  }

  /** The response shape a server sends for `(BODY.PEEK[] UID)` yields its UID and its message. */
  lemma TypicalFetchResponse(raw: string)
    ensures var fetched := [Tuple([Bytes(TypicalHead), Bytes(raw)]), Single(Bytes(")"))];
      ExtractUid(fetched) == "123" && ExtractMessageBytes(fetched) == Some(raw)
  {
    var fetched := [Tuple([Bytes(TypicalHead), Bytes(raw)]), Single(Bytes(")"))];
    TypicalHeadUid();
    FirstItemFound(fetched, TypicalHead, raw);
  }

  /** When the first item is a (header, message) pair, both come from it. */
  lemma FirstItemFound(fetched: seq<FetchItem>, head: string, raw: string)
    requires |fetched| > 0 && fetched[0] == Tuple([Bytes(head), Bytes(raw)])
    requires SearchUidFrom(head, 0).Some?
    ensures ExtractUid(fetched) == SearchUidFrom(head, 0).value
    ensures ExtractMessageBytes(fetched) == Some(raw)
  {
    assert IsFirst(fetched, HasUid, 0);
    FirstWhereAt(fetched, HasUid, 0);
    assert IsFirst(fetched, CarriesMessage, 0);
    FirstWhereAt(fetched, CarriesMessage, 0);
  }

  /** The header line a server sends for `(BODY.PEEK[] UID)`. */
  const TypicalHead := "1 (UID 123 BODY[] {200})"

  /** The search finds "UID" at index 3 and captures the digits after the space. */
  lemma TypicalHeadUid()
    ensures SearchUidFrom(TypicalHead, 0) == Some("123")
  {
    var head := TypicalHead;
    TypicalHeadMatch();
    assert head[0] == '1' && head[1] == ' ' && head[2] == '(';
    assert SearchUidFrom(head, 3) == Some("123");
    assert SearchUidFrom(head, 2) == Some("123");
    assert SearchUidFrom(head, 1) == Some("123");
  }

  /** At index 3 the pattern matches, and its group is the run "123". */
  lemma TypicalHeadMatch()
    ensures UidMatchAt(TypicalHead, 3) && UidGroup(TypicalHead, 3) == "123"
  {
    var head := TypicalHead;
    assert head[6] == ' ' && head[7] == '1' && head[8] == '2' && head[9] == '3' && head[10] == ' ';
    assert SpacesEnd(head, 7) == 7;
    assert SpacesEnd(head, 6) == 7;
    assert DigitsEnd(head, 10) == 10;
    assert DigitsEnd(head, 9) == 10;
    assert DigitsEnd(head, 8) == 10;
    assert DigitsEnd(head, 7) == 10;
    assert head[7..10] == "123";
  }

  // ---------------------------------------------------------------------------
  // Configuration
  // ---------------------------------------------------------------------------

  /** The fields of the email channel's configuration that its logic reads. */
  datatype EmailConfig = EmailConfig(
    consentGranted: bool,
    imapHost: string, imapUsername: string, imapPassword: string, imapMailbox: string,
    smtpHost: string, smtpUsername: string, smtpPassword: string,
    smtpUseTls: bool, smtpUseSsl: bool, fromAddress: string,
    autoReplyEnabled: bool, pollIntervalSeconds: int, markSeen: bool,
    maxBodyChars: int, subjectPrefix: string)

  const DefaultEmailConfig := EmailConfig(
    false,
    "", "", "", "INBOX",
    "", "", "",
    true, false, "",
    true, 30, true,
    12000, "Re: ")

  const MaxProcessedUids := 100000

  /** `_smtp_transport_secure`: implicit SSL or STARTTLS is on. */
  predicate TransportSecure(c: EmailConfig) {
    c.smtpUseSsl || c.smtpUseTls
  }

  /** The six settings `_validate_config` requires; the log names each by its snake_case field name. */
  datatype Credential = ImapHost | ImapUsername | ImapPassword | SmtpHost | SmtpUsername | SmtpPassword

  /** All six IMAP and SMTP credentials are present and SMTP is encrypted. */
  predicate Configured(c: EmailConfig) {
    c.imapHost != "" && c.imapUsername != "" && c.imapPassword != ""
    && c.smtpHost != "" && c.smtpUsername != "" && c.smtpPassword != ""
    && TransportSecure(c)
  }

  /** The defaults alone never start the channel: consent is off and no credential is set. */
  lemma DefaultsNotConfigured()
    ensures !DefaultEmailConfig.consentGranted && !Configured(DefaultEmailConfig)
    ensures TransportSecure(DefaultEmailConfig)
  {
  }

  /** The polling period `start` uses: at least five seconds. */
  function PollSeconds(c: EmailConfig): (r: int)
    ensures r >= 5
    ensures c.pollIntervalSeconds >= 5 ==> r == c.pollIntervalSeconds
    ensures c.pollIntervalSeconds < 5 ==> r == 5
  {
    if c.pollIntervalSeconds >= 5 then c.pollIntervalSeconds else 5
  }

  // ---------------------------------------------------------------------------
  // Outbound
  // ---------------------------------------------------------------------------

  /** What the agent asks the channel to send: the recipient is the chat id. */
  datatype OutboundMessage = OutboundMessage(chatId: string, content: string, metadata: map<string, Json.Value>)

  /** The message `send` hands to SMTP. */
  datatype OutgoingEmail = OutgoingEmail(
    sender: string, recipient: string, subject: string, body: string,
    inReplyTo: Option<string>, references: Option<string>)

  /**
   * How `send` ends: skipped by one of its checks, stopped by the ValueError
   * raised while a header is set on the message, or with the message handed
   * to SMTP.
   */
  datatype SendOutcome = Skipped | HeaderRejected(email: OutgoingEmail) | Handed(email: OutgoingEmail)

  /** A character at which `str.splitlines` ends a line. */
  predicate IsLineBoundary(c: char) {
    c == '\n' || c == '\r' || c == '\U{0B}' || c == '\U{0C}' || c == '\U{1C}' || c == '\U{1D}' || c == '\U{1E}'
    || c == '\U{85}' || c == '\U{2028}' || c == '\U{2029}'
  }

  /** Just past the line break at `i`: "\r\n" counts as one break. */
  function BreakEnd(s: string, i: nat): (e: nat)
    requires i < |s|
    ensures i < e <= |s|
  {
    if s[i] == '\r' && i + 1 < |s| && s[i + 1] == '\n' then i + 2 else i + 1
  }

  /** Where the line starting at `j` ends, its line break included. */
  function LineEnd(s: string, j: nat): (e: nat)
    requires j <= |s|
    ensures j <= e <= |s| && (j < |s| ==> j < e)
    decreases |s| - j
  {
    if j == |s| then j
    else if IsLineBoundary(s[j]) then BreakEnd(s, j)
    else LineEnd(s, j + 1)
  }

  /** `len(s[j:].splitlines())` */
  function LineCount(s: string, j: nat): (n: nat)
    requires j <= |s|
    ensures n == 0 <==> j == |s|
    decreases |s| - j
  {
    if j == |s| then 0 else 1 + LineCount(s, LineEnd(s, j))
  }

  /**
   * The default policy of `EmailMessage` refuses a header value that
   * `splitlines` cuts into more than one line.
   */
  predicate HeaderRefused(v: string) {
    LineCount(v, 0) > 1
  }

  /** The line starting at `j` ends before the text does iff a later break is followed by more text. */
  lemma {:induction false} LineEndBeforeEnd(s: string, j: nat)
    requires j <= |s|
    ensures LineEnd(s, j) < |s| <==> exists i :: j <= i < |s| && IsLineBoundary(s[i]) && BreakEnd(s, i) < |s|
    decreases |s| - j
  {
    if j < |s| && !IsLineBoundary(s[j]) {
      LineEndBeforeEnd(s, j + 1);
      if exists i :: j <= i < |s| && IsLineBoundary(s[i]) && BreakEnd(s, i) < |s| {
        var i :| j <= i < |s| && IsLineBoundary(s[i]) && BreakEnd(s, i) < |s|;
        assert i != j;
      }
    } else if j < |s| {
      if exists i :: j <= i < |s| && IsLineBoundary(s[i]) && BreakEnd(s, i) < |s| {
        var i :| j <= i < |s| && IsLineBoundary(s[i]) && BreakEnd(s, i) < |s|;
        if i != j {
          assert BreakEnd(s, j) < |s|;
        }
      }
    }
  }

  /**
   * A header value is refused exactly when it holds a line break followed by
   * more text: a single trailing "\n" or "\r\n" is accepted.
   */
  lemma HeaderRefusedIff(v: string)
    ensures HeaderRefused(v) <==> exists i :: 0 <= i < |v| && IsLineBoundary(v[i]) && BreakEnd(v, i) < |v|
  {
    LineEndBeforeEnd(v, 0);
  }

  /** An injected second header line is refused; a value ending in one line break is not. */
  lemma HeaderRefusedExamples()
    ensures HeaderRefused("Hi\nBcc: x")
    ensures !HeaderRefused("Hi\r\n")
    ensures !HeaderRefused("Hi")
  {
    HeaderRefusedIff("Hi\nBcc: x");
    assert IsLineBoundary("Hi\nBcc: x"[2]);
    HeaderRefusedIff("Hi\r\n");
    HeaderRefusedIff("Hi");
  }

  /** Some header `send` sets would be refused: From, To, Subject, or In-Reply-To and References. */
  predicate HeadersRefused(e: OutgoingEmail) {
    HeaderRefused(e.sender) || HeaderRefused(e.recipient) || HeaderRefused(e.subject)
    || (e.inReplyTo.Some? && HeaderRefused(e.inReplyTo.value))
  }

  /** Digits, sign and point only: the literal denotes zero. */
  predicate ZeroMantissa(literal: string) {
    literal == [] || literal[0] == 'e' || literal[0] == 'E'
    || (literal[0] in "0.+-" && ZeroMantissa(literal[1..]))
  }

  /** Python `bool(v)` for a JSON-like value. */
  predicate JsonTruthy(v: Json.Value) {
    match v
    case Null => false
    case Bool(b) => b
    case Int(i) => i != 0
    case Float(literal) => !ZeroMantissa(literal)
    case Str(s) => s != ""
    case List(items) => items != []
    case Object(fields) => fields != map[]
  }

  /** `bool(metadata.get("force_send"))` */
  predicate ForceSend(metadata: map<string, Json.Value>) {
    "force_send" in metadata && JsonTruthy(metadata["force_send"])
  }

  /** The stripped `metadata["subject"]` when it is a non-blank string. */
  function SubjectOverride(metadata: map<string, Json.Value>): (r: Option<string>)
    ensures r.Some? ==> r.value != "" && Strip(r.value) == r.value
    ensures r.None? <==> "subject" !in metadata || !metadata["subject"].Str? || Strip(metadata["subject"].s) == ""
  {
    if "subject" in metadata && metadata["subject"].Str? && Strip(metadata["subject"].s) != "" then
      StripIdempotent(metadata["subject"].s);
      Some(Strip(metadata["subject"].s))
    else None
  }

  // ---------------------------------------------------------------------------
  // Inbound
  // ---------------------------------------------------------------------------

  /** One message the search found: its id, whether FETCH answered OK with data, and that data. */
  datatype ServerMessage = ServerMessage(id: string, fetchOk: bool, fetched: seq<FetchItem>)

  /** A raw message's parsed headers (From already reduced to its address) and readable body. */
  datatype Parsed = Parsed(fromAddress: string, subject: string, date: string, messageId: string, body: string)

  /**
   * The IMAP server: `search` answers (mailbox, criteria) with the matching
   * messages in order, or None when SELECT or SEARCH fails; `parse` stands for
   * the MIME parser and the body extraction.
   */
  datatype Mailbox = Mailbox(search: (string, seq<string>) -> Option<seq<ServerMessage>>, parse: string -> Parsed)

  /** One inbound item with its metadata. */
  datatype InboundItem = InboundItem(sender: string, subject: string, messageId: string, content: string, date: string, uid: string)

  const EmptyBodyText := "(empty email body)"

  /** Python `s[:n]`: a negative `n` drops that many characters from the end. */
  function SlicePrefix(s: string, n: int): (r: string)
    ensures r <= s
    ensures n >= 0 ==> |r| == if n < |s| then n else |s|
    ensures n < 0 ==> |r| == if |s| + n > 0 then |s| + n else 0
  {
    if n >= 0 then (if n < |s| then s[..n] else s)
    else if |s| + n > 0 then s[..|s| + n] else ""
  }

  /** The body text of an item: the body (or the placeholder when empty) cut to `maxBodyChars`. */
  function BodyText(body: string, maxBodyChars: int): (r: string)
    ensures var text := if body != "" then body else EmptyBodyText;
      r <= text
      && (maxBodyChars >= 0 ==> |r| == if maxBodyChars < |text| then maxBodyChars else |text|)
      && (maxBodyChars < 0 ==> |r| == if |text| + maxBodyChars > 0 then |text| + maxBodyChars else 0)
    ensures maxBodyChars > 0 ==> r != ""
    ensures body != "" && |body| <= maxBodyChars ==> r == body
    ensures body == "" && |EmptyBodyText| <= maxBodyChars ==> r == EmptyBodyText
  {
    SlicePrefix(Or(body, EmptyBodyText), maxBodyChars)
  }

  /** The inbound item for a parsed message from `sender`. */
  function MakeItem(sender: string, p: Parsed, uid: string, maxBodyChars: int): InboundItem {
    InboundItem(
      sender, p.subject, Strip(p.messageId),
      "Email received.\nFrom: " + sender + "\nSubject: " + p.subject + "\nDate: " + p.date + "\n\n"
        + BodyText(p.body, maxBodyChars),
      p.date, uid)
  }

  /** The items gathered, the processed-UID set, and the ids flagged \Seen, as a fetch proceeds. */
  datatype FetchState = FetchState(items: seq<InboundItem>, processed: set<string>, stored: seq<string>)

  /** The processed set after remembering `uid`: emptied once it grows past the cap. */
  function Remembered(processed: set<string>, uid: string): (r: set<string>)
    ensures |processed| <= MaxProcessedUids ==> |r| <= MaxProcessedUids
    ensures |processed| < MaxProcessedUids ==> r == processed + {uid}
    ensures |processed + {uid}| > MaxProcessedUids ==> r == {}
    ensures |processed + {uid}| <= MaxProcessedUids ==> r == processed + {uid}
  {
    var grown := processed + {uid};
    assert |grown| <= |processed| + 1 by {
      if uid in processed {
        assert grown == processed;
      } else {
        assert grown == processed + {uid};
      }
    }
    if |grown| > MaxProcessedUids then {} else grown
  }

  /** An item's sender is a non-empty, lower-case address. */
  predicate SenderNormal(item: InboundItem) {
    item.sender != "" && Lower(item.sender) == item.sender
  }

  /** `parseaddr(...)[1].strip().lower()`: the address as the channel keys senders. */
  function SenderAddress(address: string): (r: string)
    ensures Lower(r) == r
  {
    LowerIdempotent(Strip(address));
    Lower(Strip(address))
  }

  /**
   * What the loop reads from one FETCH response before parsing: whether the
   * server answered OK with data, the message part, and the UID ("" if none).
   */
  datatype Fetched = Fetched(id: string, answered: bool, raw: Option<string>, uid: string)

  function Decode(m: ServerMessage): Fetched {
    Fetched(m.id, m.fetchOk && m.fetched != [], ExtractMessageBytes(m.fetched), ExtractUid(m.fetched))
  }

  /** One pass of `_fetch_messages`' loop over one decoded response. */
  function Step(st: FetchState, d: Fetched, parse: string -> Parsed, dedupe: bool, markSeen: bool, maxBodyChars: int): FetchState
  {
    if !d.answered || d.raw.None? then st
    else if dedupe && d.uid != "" && d.uid in st.processed then st
    else
      var p := parse(d.raw.value);
      var sender := SenderAddress(p.fromAddress);
      if sender == "" then st
      else
        FetchState(
          st.items + [MakeItem(sender, p, d.uid, maxBodyChars)],
          if dedupe && d.uid != "" then Remembered(st.processed, d.uid) else st.processed,
          if markSeen then st.stored + [d.id] else st.stored)
  }

  /**
   * A step appends at most one item and keeps the processed set within its
   * cap; without dedupe the set is untouched, and without mark_seen nothing
   * is flagged.
   */
  lemma StepBounds(st: FetchState, d: Fetched, parse: string -> Parsed, dedupe: bool, markSeen: bool, maxBodyChars: int)
    ensures var r := Step(st, d, parse, dedupe, markSeen, maxBodyChars);
      st.items <= r.items && |r.items| <= |st.items| + 1
      && (|st.processed| <= MaxProcessedUids ==> |r.processed| <= MaxProcessedUids)
      && (!dedupe ==> r.processed == st.processed)
      && (!markSeen ==> r.stored == st.stored)
  {
  }

  predicate AllSendersNormal(items: seq<InboundItem>) {
    forall i :: 0 <= i < |items| ==> SenderNormal(items[i])
  }

  /** The item a message adds has a normalised sender. */
  lemma StepSenderNormal(st: FetchState, d: Fetched, parse: string -> Parsed, dedupe: bool, markSeen: bool, maxBodyChars: int)
    requires AllSendersNormal(st.items)
    ensures AllSendersNormal(Step(st, d, parse, dedupe, markSeen, maxBodyChars).items)
  {
  }

  /** A message that adds no item leaves the whole state as it was. */
  lemma StepSkipKeepsState(st: FetchState, d: Fetched, parse: string -> Parsed, dedupe: bool, markSeen: bool, maxBodyChars: int)
    ensures var r := Step(st, d, parse, dedupe, markSeen, maxBodyChars);
      |r.items| == |st.items| ==> r == st
  {
  }

  /**
   * With dedupe on, a message whose UID was already processed is skipped, and
   * an admitted message's UID is remembered (unless that overflowed the cap).
   */
  lemma StepDedupe(st: FetchState, d: Fetched, parse: string -> Parsed, markSeen: bool, maxBodyChars: int)
    requires d.uid != ""
    ensures d.uid in st.processed ==> Step(st, d, parse, true, markSeen, maxBodyChars) == st
    ensures var r := Step(st, d, parse, true, markSeen, maxBodyChars);
      |st.processed| < MaxProcessedUids && |r.items| > |st.items| ==> d.uid in r.processed
  {
  }

  /** `_fetch_messages`' loop over the responses `ms`, in order, from state `st`. */
  function FetchLoop(st: FetchState, ms: seq<ServerMessage>, parse: string -> Parsed, dedupe: bool, markSeen: bool, maxBodyChars: int): FetchState
    decreases |ms|
  {
    if ms == [] then st
    else Step(FetchLoop(st, ms[..|ms| - 1], parse, dedupe, markSeen, maxBodyChars), Decode(ms[|ms| - 1]), parse, dedupe, markSeen, maxBodyChars)
  }

  /**
   * Over a whole fetch, items are only ever appended, at most one per message;
   * the processed set stays within its cap; without dedupe it is untouched,
   * and without mark_seen nothing is flagged.
   */
  lemma {:induction false} FetchLoopBounds(st: FetchState, ms: seq<ServerMessage>, parse: string -> Parsed, dedupe: bool, markSeen: bool, maxBodyChars: int)
    ensures var r := FetchLoop(st, ms, parse, dedupe, markSeen, maxBodyChars);
      st.items <= r.items && |r.items| <= |st.items| + |ms|
      && (|st.processed| <= MaxProcessedUids ==> |r.processed| <= MaxProcessedUids)
      && (!dedupe ==> r.processed == st.processed)
      && (!markSeen ==> r.stored == st.stored)
    decreases |ms|
  {
    if ms != [] {
      var prev := FetchLoop(st, ms[..|ms| - 1], parse, dedupe, markSeen, maxBodyChars);
      FetchLoopBounds(st, ms[..|ms| - 1], parse, dedupe, markSeen, maxBodyChars);
      StepBounds(prev, Decode(ms[|ms| - 1]), parse, dedupe, markSeen, maxBodyChars);
    }
  }

  /** Every item a fetch produces has a non-empty, lower-case sender. */
  lemma {:induction false} FetchedSendersNormal(st: FetchState, ms: seq<ServerMessage>, parse: string -> Parsed, dedupe: bool, markSeen: bool, maxBodyChars: int)
    requires AllSendersNormal(st.items)
    ensures AllSendersNormal(FetchLoop(st, ms, parse, dedupe, markSeen, maxBodyChars).items)
    decreases |ms|
  {
    if ms != [] {
      var prev := FetchLoop(st, ms[..|ms| - 1], parse, dedupe, markSeen, maxBodyChars);
      FetchedSendersNormal(st, ms[..|ms| - 1], parse, dedupe, markSeen, maxBodyChars);
      StepSenderNormal(prev, Decode(ms[|ms| - 1]), parse, dedupe, markSeen, maxBodyChars);
    }
  }

  /** A fetch of one message is one step. */
  lemma FetchLoopSingle(st: FetchState, m: ServerMessage, parse: string -> Parsed, dedupe: bool, markSeen: bool, maxBodyChars: int)
    ensures FetchLoop(st, [m], parse, dedupe, markSeen, maxBodyChars) == Step(st, Decode(m), parse, dedupe, markSeen, maxBodyChars)
  {
    assert [m][..0] == [];
  }

  /** The ids `_fetch_messages` visits: the last `limit` of them when `limit` is positive. */
  function Selected(ids: seq<ServerMessage>, limit: int): (r: seq<ServerMessage>)
    ensures |r| <= |ids| && r == ids[|ids| - |r|..]
    ensures limit > 0 ==> |r| == if |ids| < limit then |ids| else limit
    ensures limit <= 0 ==> r == ids
  {
    if limit > 0 && |ids| > limit then ids[|ids| - limit..] else ids
  }

  /**
   * Fetching the same message twice with dedupe on returns nothing the second
   * time, as long as the processed set is below its cap.
   */
  lemma RepeatFetchDeduped(m: ServerMessage, processed: set<string>, parse: string -> Parsed, markSeen: bool, maxBodyChars: int)
    requires |processed| < MaxProcessedUids
    requires ExtractUid(m.fetched) != ""
    ensures var first := FetchLoop(FetchState([], processed, []), [m], parse, true, markSeen, maxBodyChars);
      FetchLoop(FetchState([], first.processed, []), [m], parse, true, markSeen, maxBodyChars).items == []
  {
    var d := Decode(m);
    var first := FetchLoop(FetchState([], processed, []), [m], parse, true, markSeen, maxBodyChars);
    FetchLoopSingle(FetchState([], processed, []), m, parse, true, markSeen, maxBodyChars);
    StepSkipKeepsState(FetchState([], processed, []), d, parse, true, markSeen, maxBodyChars);
    StepDedupe(FetchState([], processed, []), d, parse, markSeen, maxBodyChars);
    FetchLoopSingle(FetchState([], first.processed, []), m, parse, true, markSeen, maxBodyChars);
    StepDedupe(FetchState([], first.processed, []), d, parse, markSeen, maxBodyChars);
    StepSkipKeepsState(FetchState([], first.processed, []), d, parse, true, markSeen, maxBodyChars);
  }

  /** Where the channel searches: the configured mailbox, or INBOX. */
  function MailboxName(c: EmailConfig): string {
    Or(c.imapMailbox, "INBOX")
  }

  /** The search of `fetch_messages_between_dates`: on or after `start`, before `end`. */
  function DateCriteria(start: Date, end: Date): (r: seq<string>)
    requires ValidDate(start) && ValidDate(end)
    ensures |r| == 4 && r[0] == "SINCE" && r[2] == "BEFORE"
    ensures ParseImapDate(r[1]) == Some(start) && ParseImapDate(r[3]) == Some(end)
  {
    FormatParseRoundTrip(start);
    FormatParseRoundTrip(end);
    ["SINCE", FormatImapDate(start), "BEFORE", FormatImapDate(end)]
  }

  /** The last subject or Message-ID field of an item. */
  datatype Field = SubjectField | MessageIdField

  function FieldOf(item: InboundItem, f: Field): string {
    match f
    case SubjectField => item.subject
    case MessageIdField => item.messageId
  }

  /** A per-sender map after `start` has seen `items`: only non-empty values overwrite. */
  function RememberAll(m: map<string, string>, items: seq<InboundItem>, f: Field): (r: map<string, string>)
    decreases |items|
  {
    if items == [] then m
    else
      var prev := RememberAll(m, items[..|items| - 1], f);
      var last := items[|items| - 1];
      if FieldOf(last, f) != "" then prev[last.sender := FieldOf(last, f)] else prev
  }

  /** The value of field `f` in the last item from `sender` that has a non-empty one. */
  function LastValue(items: seq<InboundItem>, f: Field, sender: string): (r: Option<string>)
    ensures r.Some? ==> r.value != ""
    decreases |items|
  {
    if items == [] then None
    else
      var last := items[|items| - 1];
      if last.sender == sender && FieldOf(last, f) != "" then Some(FieldOf(last, f))
      else LastValue(items[..|items| - 1], f, sender)
  }

  /**
   * After a poll, a sender's entry is the last non-empty value it sent in this
   * poll, and otherwise what it was before; a sender appears only if it had an
   * entry or sent a non-empty value.
   */
  lemma {:induction false} RememberLookup(m: map<string, string>, items: seq<InboundItem>, f: Field, sender: string)
    ensures sender in RememberAll(m, items, f) <==> sender in m || LastValue(items, f, sender).Some?
    ensures LastValue(items, f, sender).Some? ==> RememberAll(m, items, f)[sender] == LastValue(items, f, sender).value
    ensures LastValue(items, f, sender).None? && sender in m ==> RememberAll(m, items, f)[sender] == m[sender]
    decreases |items|
  {
    if items != [] {
      RememberLookup(m, items[..|items| - 1], f, sender);
    }
  }

  /** Empty subjects and Message-IDs never overwrite: a map of non-empty values stays so. */
  lemma RememberNeverBlank(m: map<string, string>, items: seq<InboundItem>, f: Field)
    requires forall k :: k in m ==> m[k] != ""
    ensures forall k :: k in RememberAll(m, items, f) ==> RememberAll(m, items, f)[k] != ""
  {
    forall k | k in RememberAll(m, items, f)
      ensures RememberAll(m, items, f)[k] != ""
    {
      RememberLookup(m, items, f, k);
    }
  }

  /** `_fetch_messages`' loop: visits `ids` in order, starting from no items and the processed set `processed0`. */
  method VisitAll(ids: seq<ServerMessage>, parse: string -> Parsed, markSeen: bool, dedupe: bool, maxBodyChars: int,
                  processed0: set<string>)
    returns (items: seq<InboundItem>, processed: set<string>, stored: seq<string>)
    ensures FetchState(items, processed, stored)
            == FetchLoop(FetchState([], processed0, []), ids, parse, dedupe, markSeen, maxBodyChars)
  {
    items, processed, stored := [], processed0, [];
    ghost var start := FetchState([], processed0, []);
    for i := 0 to |ids|
      invariant FetchState(items, processed, stored)
                == FetchLoop(start, ids[..i], parse, dedupe, markSeen, maxBodyChars)
    {
      assert ids[..i + 1][..i] == ids[..i];
      items, processed, stored := VisitMessage(ids[i], parse, markSeen, dedupe, maxBodyChars, items, processed, stored);
    }
    assert ids[..|ids|] == ids;
  }

  // ---------------------------------------------------------------------------
  // The channel
  // ---------------------------------------------------------------------------

  /**
   * The body of `_fetch_messages`' loop for one message: skip it when FETCH
   * failed, when it has no message part, when its UID was already processed
   * (with dedupe on) or when it has no sender; otherwise append its item,
   * remember its UID and flag it \Seen as asked. The channel's processed set
   * goes in as `processed0` and comes back as `processed`.
   */
  method VisitMessage(m: ServerMessage, parse: string -> Parsed, markSeen: bool, dedupe: bool, maxBodyChars: int,
                      items0: seq<InboundItem>, processed0: set<string>, stored0: seq<string>)
    returns (items: seq<InboundItem>, processed: set<string>, stored: seq<string>)
    ensures FetchState(items, processed, stored)
            == Step(FetchState(items0, processed0, stored0), Decode(m), parse, dedupe, markSeen, maxBodyChars)
  {
    items, processed, stored := items0, processed0, stored0;
    if !m.fetchOk || m.fetched == [] {
      return;
    }
    var raw := ExtractMessageBytes(m.fetched);
    if raw.None? {
      return;
    }
    var uid := ExtractUid(m.fetched);
    if dedupe && uid != "" && uid in processed {
      return;
    }
    var parsed := parse(raw.value);
    var sender := SenderAddress(parsed.fromAddress);
    if sender == "" {
      return;
    }
    items := items + [MakeItem(sender, parsed, uid, maxBodyChars)];
    if dedupe && uid != "" {
      processed := Remembered(processed, uid);
    }
    if markSeen {
      stored := stored + [m.id];
    }
  }

  class EmailChannel {
    const config: EmailConfig
    /** Per sender: the last non-empty subject received. */
    var lastSubjectByChat: map<string, string>
    /** Per sender: the last non-empty Message-ID received. */
    var lastMessageIdByChat: map<string, string>
    /** UIDs already turned into items; a safety net behind the \Seen flag. */
    var processedUids: set<string>
    var running: bool

    ghost predicate Valid()
      reads this
    {
      |processedUids| <= MaxProcessedUids
    }

    constructor(config: EmailConfig)
      ensures this.config == config
      ensures lastSubjectByChat == map[] && lastMessageIdByChat == map[]
      ensures processedUids == {} && !running
      ensures Valid()
    {
      this.config := config;
      lastSubjectByChat := map[];
      lastMessageIdByChat := map[];
      processedUids := {};
      running := false;
    }

    /**
     * `_validate_config`: `missing` names exactly the empty credentials, and the
     * check passes when none is missing and SMTP is encrypted.
     */
    method ValidateConfig() returns (ok: bool, missing: seq<Credential>)
      ensures ImapHost in missing <==> config.imapHost == ""
      ensures ImapUsername in missing <==> config.imapUsername == ""
      ensures ImapPassword in missing <==> config.imapPassword == ""
      ensures SmtpHost in missing <==> config.smtpHost == ""
      ensures SmtpUsername in missing <==> config.smtpUsername == ""
      ensures SmtpPassword in missing <==> config.smtpPassword == ""
      ensures ok <==> missing == [] && TransportSecure(config)
      ensures ok <==> Configured(config)
    {
      missing := [];
      if config.imapHost == "" {
        missing := missing + [ImapHost];
      }
      assert (ImapHost in missing <==> config.imapHost == "");
      if config.imapUsername == "" {
        missing := missing + [ImapUsername];
      }
      assert (ImapHost in missing <==> config.imapHost == "")
             && (ImapUsername in missing <==> config.imapUsername == "");
      if config.imapPassword == "" {
        missing := missing + [ImapPassword];
      }
      assert (ImapHost in missing <==> config.imapHost == "")
             && (ImapUsername in missing <==> config.imapUsername == "")
             && (ImapPassword in missing <==> config.imapPassword == "");
      if config.smtpHost == "" {
        missing := missing + [SmtpHost];
      }
      assert (ImapHost in missing <==> config.imapHost == "")
             && (ImapUsername in missing <==> config.imapUsername == "")
             && (ImapPassword in missing <==> config.imapPassword == "")
             && (SmtpHost in missing <==> config.smtpHost == "");
      if config.smtpUsername == "" {
        missing := missing + [SmtpUsername];
      }
      assert (ImapHost in missing <==> config.imapHost == "")
             && (ImapUsername in missing <==> config.imapUsername == "")
             && (ImapPassword in missing <==> config.imapPassword == "")
             && (SmtpHost in missing <==> config.smtpHost == "")
             && (SmtpUsername in missing <==> config.smtpUsername == "");
      if config.smtpPassword == "" {
        missing := missing + [SmtpPassword];
      }
      if missing != [] {
        ok := false;
      } else if !TransportSecure(config) {
        ok := false;
      } else {
        ok := true;
      }
    }

    /**
     * `start`'s checks: polling begins only with consent and a valid
     * configuration; otherwise nothing changes.
     */
    method Start() returns (polling: bool)
      modifies this
      ensures polling <==> config.consentGranted && Configured(config)
      ensures running == (polling || old(running))
      ensures lastSubjectByChat == old(lastSubjectByChat) && lastMessageIdByChat == old(lastMessageIdByChat)
      ensures processedUids == old(processedUids)
    {
      if !config.consentGranted {
        return false;
      }
      var ok, _ := ValidateConfig();
      if !ok {
        return false;
      }
      running := true;
      return true;
    }

    /** `stop` */
    method Stop()
      modifies this
      ensures !running
      ensures lastSubjectByChat == old(lastSubjectByChat) && lastMessageIdByChat == old(lastMessageIdByChat)
      ensures processedUids == old(processedUids)
    {
      running := false;
    }

    /**
     * The per-item updates of `start`'s polling loop: a sender's last subject
     * and last Message-ID are overwritten only by non-empty values.
     */
    method RecordInbound(items: seq<InboundItem>)
      modifies this
      ensures lastSubjectByChat == RememberAll(old(lastSubjectByChat), items, SubjectField)
      ensures lastMessageIdByChat == RememberAll(old(lastMessageIdByChat), items, MessageIdField)
      ensures processedUids == old(processedUids) && running == old(running)
    {
      for i := 0 to |items|
        invariant lastSubjectByChat == RememberAll(old(lastSubjectByChat), items[..i], SubjectField)
        invariant lastMessageIdByChat == RememberAll(old(lastMessageIdByChat), items[..i], MessageIdField)
        invariant processedUids == old(processedUids) && running == old(running)
      {
        assert items[..i + 1][..i] == items[..i];
        var item := items[i];
        if item.subject != "" {
          lastSubjectByChat := lastSubjectByChat[item.sender := item.subject];
        }
        if item.messageId != "" {
          lastMessageIdByChat := lastMessageIdByChat[item.sender := item.messageId];
        }
      }
      assert items[..|items|] == items;
    }

    /**
     * `send`: skipped without consent (even when forced), when automatic
     * replies are off and the message is not forced, without an SMTP host, over
     * plaintext SMTP, and for a blank recipient. Otherwise the message is
     * built: the subject is the non-blank override, else the reply subject of
     * the recipient's last subject; In-Reply-To and References carry the
     * recipient's last Message-ID exactly when one is known. A header value
     * that spans lines raises ValueError before anything reaches SMTP;
     * otherwise the message is handed over.
     */
    method Send(msg: OutboundMessage) returns (r: SendOutcome)
      ensures !config.consentGranted ==> r.Skipped?
      ensures !config.autoReplyEnabled && !ForceSend(msg.metadata) ==> r.Skipped?
      ensures config.smtpHost == "" ==> r.Skipped?
      ensures !TransportSecure(config) ==> r.Skipped?
      ensures Strip(msg.chatId) == "" ==> r.Skipped?
      ensures config.consentGranted && (config.autoReplyEnabled || ForceSend(msg.metadata))
              && config.smtpHost != "" && TransportSecure(config) && Strip(msg.chatId) != ""
              ==> !r.Skipped?
      ensures !r.Skipped? ==> (r.HeaderRejected? <==> HeadersRefused(r.email))
      ensures !r.Skipped? ==> r.email.recipient == Strip(msg.chatId) && r.email.body == msg.content
      ensures !r.Skipped? ==> r.email.sender == Or(config.fromAddress, Or(config.smtpUsername, config.imapUsername))
      ensures !r.Skipped? && SubjectOverride(msg.metadata).Some? ==> r.email.subject == SubjectOverride(msg.metadata).value
      ensures !r.Skipped? && SubjectOverride(msg.metadata).None? ==>
        var recipient := Strip(msg.chatId);
        r.email.subject == ReplySubject(
          if recipient in lastSubjectByChat then lastSubjectByChat[recipient] else DefaultSubject,
          config.subjectPrefix)
      ensures !r.Skipped? ==>
        var recipient := Strip(msg.chatId);
        (r.email.inReplyTo.Some? <==> recipient in lastMessageIdByChat && lastMessageIdByChat[recipient] != "")
        && (r.email.inReplyTo.Some? ==> r.email.inReplyTo.value == lastMessageIdByChat[recipient])
        && r.email.references == r.email.inReplyTo
    {
      if !config.consentGranted {
        return Skipped;
      }
      if !config.autoReplyEnabled && !ForceSend(msg.metadata) {
        return Skipped;
      }
      if config.smtpHost == "" {
        return Skipped;
      }
      if !TransportSecure(config) {
        return Skipped;
      }
      var recipient := Strip(msg.chatId);
      if recipient == "" {
        return Skipped;
      }
      var baseSubject := if recipient in lastSubjectByChat then lastSubjectByChat[recipient] else DefaultSubject;
      var subject := ReplySubject(baseSubject, config.subjectPrefix);
      var override := SubjectOverride(msg.metadata);
      if override.Some? {
        subject := override.value;
      }
      var inReplyTo: Option<string> := None;
      if recipient in lastMessageIdByChat && lastMessageIdByChat[recipient] != "" {
        inReplyTo := Some(lastMessageIdByChat[recipient]);
      }
      var sender := Or(config.fromAddress, Or(config.smtpUsername, config.imapUsername));
      var email := OutgoingEmail(sender, recipient, subject, msg.content, inReplyTo, inReplyTo);
      if HeadersRefused(email) {
        return HeaderRejected(email);
      }
      r := Handed(email);
    }

    /**
     * `_fetch_messages`: visits the selected messages in order and keeps those
     * with a message part, a UID not yet processed (when deduplicating) and a
     * sender address; the result is the loop `FetchLoop` describes.
     */
    method FetchMessages(mailbox: Mailbox, criteria: seq<string>, markSeen: bool, dedupe: bool, limit: int)
      returns (items: seq<InboundItem>, stored: seq<string>)
      requires Valid()
      modifies this
      ensures Valid()
      ensures mailbox.search(MailboxName(config), criteria).None? ==>
        items == [] && stored == [] && processedUids == old(processedUids)
      ensures mailbox.search(MailboxName(config), criteria).Some? ==>
        FetchState(items, processedUids, stored)
        == FetchLoop(FetchState([], old(processedUids), []), Selected(mailbox.search(MailboxName(config), criteria).value, limit),
                     mailbox.parse, dedupe, markSeen, config.maxBodyChars)
      ensures lastSubjectByChat == old(lastSubjectByChat) && lastMessageIdByChat == old(lastMessageIdByChat)
      ensures running == old(running)
    {
      items, stored := [], [];
      var found := mailbox.search(MailboxName(config), criteria);
      if found.None? {
        return;
      }
      var ids := Selected(found.value, limit);
      FetchLoopBounds(FetchState([], processedUids, []), ids, mailbox.parse, dedupe, markSeen, config.maxBodyChars);
      items, processedUids, stored := VisitAll(ids, mailbox.parse, markSeen, dedupe, config.maxBodyChars, processedUids);
    }

    /** `_fetch_new_messages`: unseen messages, deduplicated, flagged \Seen when configured. */
    method FetchNewMessages(mailbox: Mailbox) returns (items: seq<InboundItem>, stored: seq<string>)
      requires Valid()
      modifies this
      ensures Valid()
      ensures mailbox.search(MailboxName(config), ["UNSEEN"]).Some? ==>
        FetchState(items, processedUids, stored)
        == FetchLoop(FetchState([], old(processedUids), []), mailbox.search(MailboxName(config), ["UNSEEN"]).value,
                     mailbox.parse, true, config.markSeen, config.maxBodyChars)
      ensures mailbox.search(MailboxName(config), ["UNSEEN"]).None? ==>
        items == [] && stored == [] && processedUids == old(processedUids)
      ensures lastSubjectByChat == old(lastSubjectByChat) && lastMessageIdByChat == old(lastMessageIdByChat)
      ensures running == old(running)
    {
      items, stored := FetchMessages(mailbox, ["UNSEEN"], config.markSeen, true, 0);
    }

    /**
     * `fetch_messages_between_dates`: nothing for an empty range; otherwise at
     * most `max(1, limit)` of the latest messages of [start, end), neither
     * flagged \Seen nor deduplicated, leaving the processed set as it was.
     */
    method FetchMessagesBetweenDates(mailbox: Mailbox, start: Date, end: Date, limit: int) returns (items: seq<InboundItem>)
      requires ValidDate(start) && ValidDate(end)
      requires Valid()
      modifies this
      ensures DateLe(end, start) ==> items == []
      ensures !DateLe(end, start) && mailbox.search(MailboxName(config), DateCriteria(start, end)).Some? ==>
        items == FetchLoop(FetchState([], processedUids, []),
                           Selected(mailbox.search(MailboxName(config), DateCriteria(start, end)).value, if limit > 1 then limit else 1),
                           mailbox.parse, false, false, config.maxBodyChars).items
      ensures !DateLe(end, start) && mailbox.search(MailboxName(config), DateCriteria(start, end)).None? ==> items == []
      ensures |items| <= if limit > 1 then limit else 1
      ensures processedUids == old(processedUids) && Valid()
      ensures lastSubjectByChat == old(lastSubjectByChat) && lastMessageIdByChat == old(lastMessageIdByChat)
      ensures running == old(running)
    {
      if DateLe(end, start) {
        return [];
      }
      var clamped := if limit > 1 then limit else 1;
      ghost var found := mailbox.search(MailboxName(config), DateCriteria(start, end));
      if found.Some? {
        FetchLoopBounds(FetchState([], processedUids, []), Selected(found.value, clamped), mailbox.parse, false, false, config.maxBodyChars);
      }
      var stored;
      items, stored := FetchMessages(mailbox, DateCriteria(start, end), false, false, clamped);
    }
  }

  /** The dates of a one-day search are written as the server expects them. */
  lemma OneDaySearch()
    ensures DateCriteria(Date(2026, 2, 6), Date(2026, 2, 7)) == ["SINCE", "06-Feb-2026", "BEFORE", "07-Feb-2026"]
  {
    assert FormatImapDate(Date(2026, 2, 6)) == "06-Feb-2026" by {
      FebruaryDate(6);
      assert DigitChar(6) == '6';
    }
    assert FormatImapDate(Date(2026, 2, 7)) == "07-Feb-2026" by {
      FebruaryDate(7);
      assert DigitChar(7) == '7';
    }
  }

  /** A single-digit day of February 2026 in IMAP form. */
  lemma FebruaryDate(day: nat)
    requires 1 <= day <= 9
    ensures FormatImapDate(Date(2026, 2, day)) == ['0', DigitChar(day)] + "-Feb-2026"
  {
    assert NatToString(2026) == "2026" by {
      assert DigitChar(0) == '0' && DigitChar(2) == '2' && DigitChar(6) == '6';
      assert NatToString(2) == "2";
      assert NatToString(20) == NatToString(2) + [DigitChar(0)];
      assert NatToString(202) == NatToString(20) + [DigitChar(2)];
      assert NatToString(2026) == NatToString(202) + [DigitChar(6)];
    }
    assert Pad2(day) == ['0', DigitChar(day)];
    assert ImapMonths[1] == "Feb";
  }

  /** A reply to a known subject with the default prefix, as the channel threads it. */
  lemma ReplyToInvoice()
    ensures ReplySubject("Invoice #42", DefaultPrefix) == "Re: Invoice #42"
  {
    StripOfStripped("Invoice #42");
  }
}
