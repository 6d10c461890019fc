/** The SMS and e-mail configuration records with their defaults and the
    checks the services run on them. A Java `null` field is `None`. */
module Configs {
  import opened Wrappers
  import opened Text
  import Phones

  // ---------------------------------------------------------------------------
  // Modes
  // ---------------------------------------------------------------------------

  /** `"log".equalsIgnoreCase(mode)`; a null mode is no mode. */
  predicate IsLogMode(mode: Option<string>) {
    mode.Some? && EqualsIgnoreCase("log", mode.value)
  }

  /** `"real".equalsIgnoreCase(mode)`. */
  predicate IsRealMode(mode: Option<string>) {
    mode.Some? && EqualsIgnoreCase("real", mode.value)
  }

  /** The two modes never hold together, and both ignore case. */
  lemma ModesExclusive(mode: Option<string>)
    ensures !(IsLogMode(mode) && IsRealMode(mode))
    ensures IsLogMode(Some("LOG")) && IsLogMode(Some("Log")) && IsRealMode(Some("REAL"))
  {
    assert ToUpper("LOG") == ToUpper("log");
    assert ToUpper("Log") == ToUpper("log");
    assert ToUpper("REAL") == ToUpper("real");
  }

  // ---------------------------------------------------------------------------
  // SMS
  // ---------------------------------------------------------------------------

  datatype ProviderConfig = ProviderConfig(
    name: Option<string>,
    accessKey: Option<string>,
    secretKey: Option<string>,
    signature: Option<string>)

  datatype SmsTemplateConfig = SmsTemplateConfig(
    templateCode: Option<string>,
    signature: Option<string>,
    content: Option<string>,
    enabled: bool)

  datatype SmsConfig = SmsConfig(
    enabled: bool,
    mode: Option<string>,
    defaultRecipient: Option<string>,
    provider: Option<ProviderConfig>,
    templates: map<string, SmsTemplateConfig>)

  const MaxSmsLength: int := 70
  const MaxLongSmsLength: int := 500

  function DefaultProvider(): ProviderConfig {
    ProviderConfig(Some("aliyun"), None, None, Some("证书管理系统"))
  }

  function DefaultSmsConfig(): (c: SmsConfig)
    ensures c.enabled && IsLogMode(c.mode)
    ensures c.defaultRecipient == Some(Phones.DefaultSmsRecipient)
  {
    assert IsLogMode(Some("log"));
    SmsConfig(true, Some("log"), Some(Phones.DefaultSmsRecipient), Some(DefaultProvider()), map[])
  }

  /** A non-null string with some char above U+0020 (`s != null && !s.trim().isEmpty()`). */
  predicate Present(s: Option<string>) {
    s.Some? && !IsBlank(s.value)
  }

  /** `SmsConfig.isValidConfiguration`. */
  function SmsConfigValid(c: SmsConfig): (b: bool)
    ensures !c.enabled ==> b
    ensures c.enabled && IsRealMode(c.mode) ==>
      (b <==> c.provider.Some? && Present(c.provider.value.accessKey) &&
              Present(c.provider.value.secretKey) && Present(c.provider.value.signature))
    ensures c.enabled && !IsRealMode(c.mode) ==> (b <==> Present(c.defaultRecipient))
  {
    if !c.enabled then true
    else if IsRealMode(c.mode) then
      c.provider.Some? && Present(c.provider.value.accessKey) &&
      Present(c.provider.value.secretKey) && Present(c.provider.value.signature)
    else Present(c.defaultRecipient)
  }

  /** The shipped defaults are valid, and switching them to real mode without
      credentials is not. */
  lemma DefaultSmsConfigValidity()
    ensures SmsConfigValid(DefaultSmsConfig())
    ensures !SmsConfigValid(DefaultSmsConfig().(mode := Some("real")))
  {
    assert IsRealMode(Some("real"));
    assert !IsBlank(Phones.DefaultSmsRecipient) by { assert Phones.DefaultSmsRecipient[0] == '1'; }
  }

  /** The fields validity reads: in real mode the provider's credentials and
      not the recipient, in any other mode the recipient and not the
      provider, and never the templates. */
  lemma SmsValidityFields(c: SmsConfig, p: Option<ProviderConfig>, recipient: Option<string>,
                          t: map<string, SmsTemplateConfig>)
    ensures SmsConfigValid(c.(templates := t)) == SmsConfigValid(c)
    ensures IsRealMode(c.mode) ==> SmsConfigValid(c.(defaultRecipient := recipient)) == SmsConfigValid(c)
    ensures !IsRealMode(c.mode) ==> SmsConfigValid(c.(provider := p)) == SmsConfigValid(c)
  {
  }

  /** An enabled configuration that stays valid when switched to either
      mode has all three provider credentials and a recipient. */
  lemma SmsValidInBothModes(c: SmsConfig)
    requires c.enabled
    requires SmsConfigValid(c.(mode := Some("real"))) && SmsConfigValid(c.(mode := Some("log")))
    ensures c.provider.Some? && Present(c.provider.value.accessKey) &&
            Present(c.provider.value.secretKey) && Present(c.provider.value.signature)
    ensures Present(c.defaultRecipient)
  {
  }

  /** `SmsConfig.isValidPhoneNumber`: null or blank is invalid, otherwise the pattern. */
  function ConfigIsValidPhoneNumber(p: Option<string>): (b: bool)
    ensures b == Phones.IsPhoneValid(p)
  {
    if p.None? then false
    else if IsBlank(p.value) then
      Phones.PhonePatternMeaning(p.value);
      assert |p.value| > 0 ==> p.value[0] <= ' ';
      false
    else
      Phones.MatchesClasses(p.value, Phones.PhonePattern)
  }

  /** `SmsConfig.maskPhoneNumber`, a second copy of the formatter's masking. */
  function ConfigMaskPhoneNumber(p: Option<string>): (r: Option<string>)
    ensures r == Phones.MaskPhone(p)
  {
    if p.None? || |p.value| != 11 then p else Some(p.value[..3] + "****" + p.value[7..])
  }

  /** `getTemplateConfig`: a plain lookup, null when absent. */
  function SmsTemplateFor(c: SmsConfig, templateType: string): (r: Option<SmsTemplateConfig>)
    ensures r.Some? <==> templateType in c.templates
    ensures r.Some? ==> r.value == c.templates[templateType]
  {
    if templateType in c.templates then Some(c.templates[templateType]) else None
  }

  /** The provider tests: non-null provider and a name equal ignoring case. */
  predicate ProviderIs(c: SmsConfig, name: string) {
    c.provider.Some? && c.provider.value.name.Some? && EqualsIgnoreCase(name, c.provider.value.name.value)
  }

  predicate IsAliyunProvider(c: SmsConfig) { ProviderIs(c, "aliyun") }
  predicate IsTencentProvider(c: SmsConfig) { ProviderIs(c, "tencent") }
  predicate IsCustomProvider(c: SmsConfig) { ProviderIs(c, "custom") }

  /** At most one provider test holds for any configuration, and the default
      provider is Aliyun. */
  lemma AtMostOneProvider(c: SmsConfig)
    ensures !(IsAliyunProvider(c) && IsTencentProvider(c))
    ensures !(IsAliyunProvider(c) && IsCustomProvider(c))
    ensures !(IsTencentProvider(c) && IsCustomProvider(c))
    ensures IsAliyunProvider(DefaultSmsConfig())
  {
    assert ToUpper("aliyun")[0] != ToUpper("custom")[0];
  }

  // ---------------------------------------------------------------------------
  // E-mail
  // ---------------------------------------------------------------------------

  datatype SmtpConfig = SmtpConfig(host: Option<string>, username: Option<string>)

  datatype EmailTemplateConfig = EmailTemplateConfig(
    subject: Option<string>,
    templatePath: Option<string>,
    contentTemplate: Option<string>,
    htmlEnabled: bool)

  datatype EmailConfig = EmailConfig(
    enabled: bool,
    mode: Option<string>,
    defaultRecipient: Option<string>,
    smtp: Option<SmtpConfig>,
    templates: map<string, EmailTemplateConfig>)

  const DefaultEmailRecipient: string := "admin@example.com"

  function DefaultEmailConfig(): (c: EmailConfig)
    ensures c.enabled && IsLogMode(c.mode)
    ensures c.defaultRecipient == Some(DefaultEmailRecipient)
  {
    assert IsLogMode(Some("log"));
    EmailConfig(true, Some("log"), Some(DefaultEmailRecipient),
                Some(SmtpConfig(Some("smtp.example.com"), Some("noreply@example.com"))), map[])
  }

  /** `EmailConfig.isValidConfiguration`. */
  function EmailConfigValid(c: EmailConfig): (b: bool)
    ensures !c.enabled ==> b
    ensures c.enabled && IsRealMode(c.mode) ==>
      (b <==> c.smtp.Some? && Present(c.smtp.value.host) && Present(c.smtp.value.username))
    ensures c.enabled && !IsRealMode(c.mode) ==> (b <==> Present(c.defaultRecipient))
  {
    if !c.enabled then true
    else if IsRealMode(c.mode) then
      c.smtp.Some? && Present(c.smtp.value.host) && Present(c.smtp.value.username)
    else Present(c.defaultRecipient)
  }

  /** The shipped e-mail defaults are valid in both modes: the default SMTP
      host and user are filled in. */
  lemma DefaultEmailConfigValidity()
    ensures EmailConfigValid(DefaultEmailConfig())
    ensures EmailConfigValid(DefaultEmailConfig().(mode := Some("real")))
  {
    assert IsRealMode(Some("real"));
    assert !IsBlank(DefaultEmailRecipient) by { assert DefaultEmailRecipient[0] == 'a'; }
    assert !IsBlank("smtp.example.com") by { assert "smtp.example.com"[0] == 's'; }
    assert !IsBlank("noreply@example.com") by { assert "noreply@example.com"[0] == 'n'; }
  }

  /** The fields validity reads: in real mode the SMTP host and user and not
      the recipient, in any other mode the recipient and not the SMTP
      settings, and never the templates. */
  lemma EmailValidityFields(c: EmailConfig, smtp: Option<SmtpConfig>, recipient: Option<string>,
                            t: map<string, EmailTemplateConfig>)
    ensures EmailConfigValid(c.(templates := t)) == EmailConfigValid(c)
    ensures IsRealMode(c.mode) ==> EmailConfigValid(c.(defaultRecipient := recipient)) == EmailConfigValid(c)
    ensures !IsRealMode(c.mode) ==> EmailConfigValid(c.(smtp := smtp)) == EmailConfigValid(c)
  {
  }

  /** An enabled configuration that stays valid when switched to either
      mode has an SMTP host, an SMTP user and a recipient. */
  lemma EmailValidInBothModes(c: EmailConfig)
    requires c.enabled
    requires EmailConfigValid(c.(mode := Some("real"))) && EmailConfigValid(c.(mode := Some("log")))
    ensures c.smtp.Some? && Present(c.smtp.value.host) && Present(c.smtp.value.username)
    ensures Present(c.defaultRecipient)
  {
  }

  /** `EmailConfig.getTemplateConfig`. */
  function EmailTemplateFor(c: EmailConfig, templateType: string): (r: Option<EmailTemplateConfig>)
    ensures r.Some? <==> templateType in c.templates
    ensures r.Some? ==> r.value == c.templates[templateType]
  {
    if templateType in c.templates then Some(c.templates[templateType]) else None
  }
}
