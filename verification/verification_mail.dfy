/** The localised account verification email (`getEmailTemplate` in
    kajix-api/src/users/users.service.ts). */
module VerificationMail {
  import opened Common

  /** The `Locale` of the request: Brazilian Portuguese, English, or any
      other value the caller passed. */
  datatype Locale = PtBr | En | Unsupported(tag: string)

  /** The value stored in a token's `locale` column and printed in errors. */
  function LocaleTag(locale: Locale): string {
    match locale
    case PtBr => "ptbr"
    case En => "en"
    case Unsupported(tag) => tag
  }

  /** The fixed parts of one locale's template: the subject, and the body
      text before and after the verification link. */
  datatype Wording = Wording(subject: string, opening: string, closing: string)

  /** The templates the service is built with, one per supported locale. */
  const Templates: map<Locale, Wording> := map[
    PtBr := Wording("Confirme seu email",
      "\n            <p class=\"welcome-text\">Obrigado por se juntar ao KAJIX!</p>\n            <p>Para completar seu cadastro e acessar todos os nossos recursos com IA, por favor verifique seu endereço de email clicando no botão abaixo:</p>\n            <div class=\"button-container\">\n              <button class=\"button\" onclick=\"window.location.href='",
      "'\">Confirmar Email</button>\n            </div>\n            <p style=\"margin-top: 0.5rem; font-size: 0.9rem; color: #777777; font-style: italic; margin-bottom: 0;\">Se você não criou uma conta conosco, por favor ignore este email.</p>\n          "),
    En := Wording("Confirm your email",
      "\n            <p class=\"welcome-text\">Thank you for joining KAJIX!</p>\n            <p>To complete your registration and access all our AI-powered features, please verify your email address by clicking the button below:</p>\n            <div class=\"button-container\">\n              <button class=\"button\" onclick=\"window.location.href='",
      "'\">Confirm Email</button>\n            </div>\n            <p style=\"margin-top: 0.5rem; font-size: 0.9rem; color: #777777; font-style: italic; margin-bottom: 0;\">If you did not create an account with us, please disregard this email.</p>\n          ")]

  /** Exactly Portuguese and English have a template. */
  lemma TemplatesSupported(locale: Locale)
    ensures locale in Templates <==> !locale.Unsupported?
    ensures locale == PtBr ==> Templates[locale].subject == "Confirme seu email"
    ensures locale == En ==> Templates[locale].subject == "Confirm your email"
  {
  }

  datatype EmailTemplate = EmailTemplate(subject: string, body: string)

  /** `getEmailTemplate`: the subject of the locale's template and its body
      with the verification link put in; a locale without a template is a
      BadRequest naming it. */
  function GetEmailTemplate(templates: map<Locale, Wording>, locale: Locale, verificationLink: string)
    : (r: Result<EmailTemplate>)
    ensures r.Ok? <==> locale in templates
    ensures r.Ok? ==> r.value.subject == templates[locale].subject
    ensures r.Ok? ==> r.value.body == templates[locale].opening + verificationLink + templates[locale].closing
    ensures r.Err? ==> r.error == BadRequest("Unsupported locale: " + LocaleTag(locale))
  {
    if locale !in templates then Err(BadRequest("Unsupported locale: " + LocaleTag(locale)))
    else
      var w := templates[locale];
      Ok(EmailTemplate(w.subject, w.opening + verificationLink + w.closing))
  }

  /** Mails for different links differ: the body determines the link. */
  lemma TemplateLinkInjective(templates: map<Locale, Wording>, locale: Locale, link1: string, link2: string)
    requires locale in templates
    requires GetEmailTemplate(templates, locale, link1).value.body == GetEmailTemplate(templates, locale, link2).value.body
    ensures link1 == link2
  {
    Cancel(templates[locale].opening, link1, link2, templates[locale].closing);
  }

  /** A common prefix and suffix cancel. */
  lemma Cancel(p: string, x: string, y: string, q: string)
    requires p + x + q == p + y + q
    ensures x == y
  {
    assert x == (p + x + q)[|p|..|p| + |x|];
    assert y == (p + y + q)[|p|..|p| + |y|];
  }
}
