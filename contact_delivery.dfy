/**
  What pages/api/contact.ts does with a valid submission: `sendEmail` picks at most
  one e-mail channel from the environment, and `saveToFile` appends the message to
  data/messages.json when no e-mail went out.
 */
module ContactDelivery {
  import opened Wrappers
  import opened JsonFile

  /**
    The environment variables `sendEmail` consults. A variable that is unset or empty
    is `""`: both are falsy in JavaScript, so both switch the channel off.
   */
  datatype Config = Config(sendgridApiKey: string, smtpHost: string, smtpUser: string, smtpPass: string)

  /** Whether each provider's send call would resolve (true) or throw (false). */
  datatype Providers = Providers(sendgridDelivers: bool, smtpDelivers: bool)

  datatype Channel = SendGrid | Smtp

  predicate SmtpConfigured(cfg: Config) {
    cfg.smtpHost != "" && cfg.smtpUser != "" && cfg.smtpPass != ""
  }

  /**
    The channel `sendEmail` tries: SendGrid whenever its key is set, SMTP only when
    the key is not set and host, user and password all are, otherwise none.
   */
  function ChooseChannel(cfg: Config): (ch: Option<Channel>)
    ensures ch == Some(SendGrid) <==> cfg.sendgridApiKey != ""
    ensures ch == Some(Smtp) <==> cfg.sendgridApiKey == "" && SmtpConfigured(cfg)
    ensures ch == None <==> cfg.sendgridApiKey == "" && !SmtpConfigured(cfg)
  {
    if cfg.sendgridApiKey != "" then Some(SendGrid)
    else if SmtpConfigured(cfg) then Some(Smtp)
    else None
  }

  /**
    `sendEmail(data)`: true exactly when the one chosen channel delivers. The single
    `try` around both branches turns a SendGrid exception into `false`; SMTP is not
    tried after it.
   */
  function SendEmail(cfg: Config, providers: Providers): (sent: bool)
    ensures sent ==> ChooseChannel(cfg).Some?
    ensures ChooseChannel(cfg) == Some(SendGrid) ==> (sent <==> providers.sendgridDelivers)
    ensures ChooseChannel(cfg) == Some(Smtp) ==> (sent <==> providers.smtpDelivers)
  {
    match ChooseChannel(cfg)
    case None => false
    case Some(SendGrid) => providers.sendgridDelivers
    case Some(Smtp) => providers.smtpDelivers
  }

  /** A SendGrid failure is final: whatever SMTP would have done, nothing is sent. */
  lemma SendGridFailureIsFinal(cfg: Config, providers: Providers)
    requires cfg.sendgridApiKey != "" && !providers.sendgridDelivers
    ensures !SendEmail(cfg, providers)
    ensures !SendEmail(cfg, providers.(smtpDelivers := true))
  {
  }

  /** With neither channel configured nothing is sent, whatever the providers would do. */
  lemma NothingConfigured(cfg: Config, providers: Providers)
    requires cfg.sendgridApiKey == "" && !SmtpConfigured(cfg)
    ensures !SendEmail(cfg, providers)
  {
  }

  /** The trimmed submission. */
  datatype FormData = FormData(name: string, email: string, subject: string, message: string)

  /** One element of data/messages.json: `{ id, timestamp, ...data }`. */
  datatype Message = Message(id: string, timestamp: string, name: string, email: string, subject: string, message: string)

  /** The stored record: the id and timestamp, followed by every field of the submission unchanged. */
  function ToMessage(data: FormData, id: string, timestamp: string): (m: Message)
    ensures m.id == id && m.timestamp == timestamp
    ensures FormData(m.name, m.email, m.subject, m.message) == data
  {
    Message(id, timestamp, data.name, data.email, data.subject, data.message)
  }

  /**
    `saveToFile` as a whole-file read-modify-write: it succeeds exactly when the
    directory is there, the file reads as an array (a missing one as `[]`) and the
    write goes through; then the file holds the old records, unchanged and in order,
    followed by the one new record. On failure the file is as before.
   */
  function SaveMessage(file: FileState<Message>, m: Message, io: StoreIo): (r: Saved<Message>)
    ensures r.ok <==> io.dirReady && !file.Corrupt? && io.writeOk
    ensures r.ok ==> r.file.Stored? && |r.file.records| == |Load(file).value| + 1
    ensures r.ok ==> r.file.records[..|r.file.records| - 1] == Load(file).value
    ensures r.ok ==> r.file.records[|r.file.records| - 1] == m
    ensures !r.ok ==> r.file == file
  {
    if !io.dirReady then Saved(false, file)
    else match Load(file)
      case None => Saved(false, file)
      case Some(records) => if io.writeOk then Saved(true, Stored(records + [m])) else Saved(false, file)
  }

  /** data/messages.json. */
  class MessageStore {
    var file: FileState<Message>

    constructor (file: FileState<Message>)
      ensures this.file == file
    {
      this.file := file;
    }

    /** `saveToFile(data)`: reads the array, pushes the new record and writes the array back. */
    method SaveToFile(data: FormData, id: string, timestamp: string, io: StoreIo) returns (ok: bool)
      modifies this
      ensures Saved(ok, file) == SaveMessage(old(file), ToMessage(data, id, timestamp), io)
    {
      if !io.dirReady {
        return false;
      }
      var messages: seq<Message> := [];
      match file {
        case Corrupt =>
          return false;
        case Stored(records) =>
          messages := records;
        case Missing =>
      }
      messages := messages + [Message(id, timestamp, data.name, data.email, data.subject, data.message)];
      if !io.writeOk {
        return false;
      }
      file := Stored(messages);
      return true;
    }
  }
}
