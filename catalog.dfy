/**
 * The fixed choice lists the job form validates against
 * (employer_profile/views.py): industries, the department list of each
 * industry, work types, gender requirements, experience levels, salary
 * types, salary frequencies and location types.
 */
module Catalog {
  import opened Wrappers

  const Industries: seq<string> := [
    "information_technology", "management", "business", "finance",
    "healthcare", "education", "manufacturing", "construction",
    "retail", "hospitality", "telecommunication", "transportation",
    "legal", "human_resources", "marketing_advertising", "media_entertainment",
    "research_development", "non_profit", "government", "agriculture",
    "energy_utilities", "pharmaceutical", "aerospace", "automotive",
    "tourism", "food_beverage", "beauty_wellness", "sports_recreation",
    "arts_culture", "environmental", "security", "consulting"
  ]

  /**
   * DEPARTMENTS: the department list of each industry that has one, and
   * None for any other string.
   */
  function DepartmentsOf(industry: string): Option<seq<string>> {
    if industry == "information_technology" then Some(["software_development", "devops", "it_support", "network_engineering", "data_science"])
    else if industry == "management" then Some(["project_management", "operations", "product_management", "strategy", "risk_management"])
    else if industry == "business" then Some(["business_analysis", "sales", "business_development", "customer_success"])
    else if industry == "finance" then Some(["accounting", "audit", "treasury", "investment_banking", "financial_planning"])
    else if industry == "healthcare" then Some(["nursing", "medical_administration", "healthcare_it", "pharmacy", "physiotherapy"])
    else if industry == "education" then Some(["teaching", "curriculum_development", "admissions", "administration"])
    else if industry == "manufacturing" then Some(["production", "quality_assurance", "maintenance", "supply_chain_management"])
    else if industry == "construction" then Some(["site_management", "civil_engineering", "architecture", "safety"])
    else if industry == "retail" then Some(["store_management", "merchandising", "inventory_management", "customer_service"])
    else if industry == "hospitality" then Some(["hotel_management", "food_beverage", "front_desk", "housekeeping"])
    else if industry == "telecommunication" then Some(["network_operations", "technical_support", "sales", "engineering"])
    else if industry == "transportation" then Some(["logistics", "fleet_management", "transportation_planning", "operations"])
    else if industry == "legal" then Some(["corporate_law", "compliance", "contracts", "litigation"])
    else if industry == "human_resources" then Some(["recruitment", "learning_development", "compensation_benefits", "employee_relations"])
    else if industry == "marketing_advertising" then Some(["digital_marketing", "brand_management", "market_research", "public_relations"])
    else if industry == "media_entertainment" then Some(["journalism", "editing", "production", "social_media"])
    else if industry == "research_development" then Some(["lab_research", "clinical_trials", "product_innovation"])
    else if industry == "non_profit" then Some(["program_management", "fundraising", "volunteer_coordination", "advocacy"])
    else if industry == "government" then Some(["policy_development", "public_administration", "regulatory_affairs"])
    else if industry == "agriculture" then Some(["crop_science", "farm_management", "agricultural_technology", "quality_control"])
    else if industry == "energy_utilities" then Some(["oil_gas", "renewable_energy", "safety_management", "procurement"])
    else if industry == "pharmaceutical" then Some(["r_and_d", "regulatory_affairs", "quality_control", "sales"])
    else if industry == "aerospace" then Some(["avionics", "aircraft_design", "maintenance", "flight_operations"])
    else if industry == "automotive" then Some(["automotive_engineering", "manufacturing", "quality_assurance", "sales"])
    else if industry == "tourism" then Some(["travel_concierge", "tour_operations", "event_planning", "marketing"])
    else if industry == "food_beverage" then Some(["culinary_arts", "quality_control", "procurement", "sales"])
    else if industry == "beauty_wellness" then Some(["cosmetology", "retail", "product_development", "marketing"])
    else if industry == "sports_recreation" then Some(["coaching", "operations", "sales", "event_management"])
    else if industry == "arts_culture" then Some(["gallery_management", "curation", "production", "education"])
    else if industry == "environmental" then Some(["environmental_consulting", "field_research", "policy_development"])
    else if industry == "security" then Some(["physical_security", "cybersecurity", "investigations"])
    else if industry == "consulting" then Some(["strategy_consulting", "it_consulting", "management_consulting", "hr_consulting"])
    else None
  }

  const WorkTypes: seq<string> := ["part_time", "full_time", "contract", "internship"]
  const Genders: seq<string> := ["male", "female", "no_requirement"]
  const ExperienceLevels: seq<string> := ["intern", "junior", "mid", "senior"]
  const SalaryTypes: seq<string> := ["fixed", "negotiable"]
  const Frequencies: set<string> := {"hourly", "weekly", "monthly", "quarterly", "yearly"}
  const LocationTypes: seq<string> := ["remote", "onsite", "office", "hybrid"]

  /**
   * Every industry with a department list is a listed industry, so a string
   * that fails the industry check never has its department checked against
   * a list.
   */
  lemma DepartmentsOnlyForIndustries(industry: string)
    requires DepartmentsOf(industry).Some?
    ensures industry in Industries
  {
  }

  /**
   * The choice lists a job form is validated against; `departments` gives
   * the department list of an industry that has one.
   */
  datatype Choices = Choices(
    industries: seq<string>,
    departments: string -> Option<seq<string>>,
    workTypes: seq<string>,
    genders: seq<string>,
    experienceLevels: seq<string>,
    salaryTypes: seq<string>,
    frequencies: set<string>,
    locationTypes: seq<string>)

  /** The lists of the views. */
  const FormChoices: Choices :=
    Choices(Industries, DepartmentsOf, WorkTypes, Genders, ExperienceLevels, SalaryTypes, Frequencies, LocationTypes)

  /** Every industry with a department list is one of the listed industries. */
  ghost predicate DepartmentsListed(ch: Choices) {
    forall industry :: ch.departments(industry).Some? ==> industry in ch.industries
  }

  lemma FormDepartmentsListed()
    ensures DepartmentsListed(FormChoices)
  {
    forall industry | FormChoices.departments(industry).Some? ensures industry in FormChoices.industries {
      DepartmentsOnlyForIndustries(industry);
    }
  }
}
