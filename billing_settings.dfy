/** The billing service's settings (billing_service/src/settings.py): the shared
    fields, bounds and database_url with the billing defaults. */
module BillingSettings {

  import opened Wrappers
  import opened ServiceSettings

  const BILLING_DEFAULTS := Settings(
    "billing_service", "development", "user", "pass", "rabbitmq", 5672, DEFAULT_EXCHANGE,
    "postgres", "postgres", "db", 5434, "billing_service", 5, false, DEFAULT_LOG_LEVEL)

  /** The defaults satisfy the bounds: database port 5434, database "billing_service",
      exchange "asyncflow.exchange", log level INFO. */
  lemma BillingDefaultsValid()
    ensures Validate(BILLING_DEFAULTS) == Ok(BILLING_DEFAULTS)
    ensures BILLING_DEFAULTS.dbPort == 5434 && BILLING_DEFAULTS.dbName == "billing_service"
    ensures BILLING_DEFAULTS.amqpExchange == "asyncflow.exchange" && BILLING_DEFAULTS.logLevel == INFO
  {
  }

  /** With the defaults, database_url is the PostgreSQL URL for host "db" on port 5434. */
  lemma BillingDefaultUrl()
    ensures DatabaseUrl(BILLING_DEFAULTS)
            == "postgresql+asyncpg://" + "postgres" + ":" + "postgres" + "@" + "db" + ":" + "5434" + "/" + "billing_service"
  {
    DigitsOf5434();
    assert DatabaseUrl(BILLING_DEFAULTS) == PostgresUrl(BILLING_DEFAULTS) + "";
  }
}
