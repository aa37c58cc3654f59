/** The configuration a first run starts from. */
module Constants {
  import opened Types

  /** 10000 a month over 22 working days of 8 hours, starting at 09:00. */
  const DefaultConfig := SalaryConfig(10000.0, 22.0, 8.0, "¥", 9, 0)
}
